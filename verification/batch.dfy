/** The `BatchConsumer` object (pkg/consumer/consumer.go:250-367), with the slice as a backing array
    and a length. Each critical section is proved to be the shared-state function BatchModel's
    machine uses for it. */
module BatchConsumers {
  import opened BatchModel

  class BatchConsumer {
    const batchSize: nat
    var data: array<Msg>
    var len: nat
    var token: bool
    var stopClosed: bool
    var running: bool
    /** Backing arrays of the batches already taken. */
    ghost var handedOut: set<array<Msg>>

    ghost predicate Valid()
      reads this
    {
      batchSize >= 1 && len <= data.Length && data !in handedOut
    }

    ghost function View(): Shared
      reads this, data
      requires len <= data.Length
    {
      Shared(batchSize, data[..len], token, stopClosed, running)
    }

    constructor (batchSize: int)
      ensures Valid() && fresh(data) && handedOut == {}
      ensures View() == InitShared(ClampBatch(batchSize))
    {
      this.batchSize := ClampBatch(batchSize);
      data := new Msg[ClampBatch(batchSize)];
      len, token, stopClosed, running := 0, false, false, false;
      handedOut := {};
    }

    /** `append` and the length test, under the lock. Batches already taken are not written. */
    method AppendLocked(m: Msg) returns (shouldFlush: bool)
      requires Valid()
      modifies this`data, this`len, data
      ensures Valid() && (data == old(data) || fresh(data))
      ensures View() == Append(old(View()), m)
      ensures data[..len] == old(data[..len]) + [m]
      ensures token == old(token) && stopClosed == old(stopClosed) && running == old(running)
      ensures shouldFlush <==> len >= batchSize
      ensures forall b :: b in handedOut ==> b[..] == old(b[..])
    {
      if len == data.Length {
        var grown := new Msg[2 * len + 1];
        for i := 0 to len
          invariant grown[..i] == data[..i]
          modifies grown
        {
          grown[i] := data[i];
        }
        data := grown;
      }
      assert data[..len] == old(data[..len]);
      data[len] := m;
      len := len + 1;
      shouldFlush := len >= batchSize;
    }

    /** The select with a default: a token that is already there is enough. */
    method TrySignal()
      requires Valid()
      modifies this`token
      ensures Valid() && View() == Signal(old(View())) && token
    {
      if !token {
        token := true;
      }
    }

    method Add(m: Msg)
      requires Valid()
      modifies this`data, this`len, this`token, data
      ensures Valid() && (data == old(data) || fresh(data))
      ensures var sh := Append(old(View()), m); View() == if IsFull(sh) then Signal(sh) else sh
      ensures data[..len] == old(data[..len]) + [m]
      ensures token == (old(token) || len >= batchSize)
      ensures forall b :: b in handedOut ==> b[..] == old(b[..])
    {
      var shouldFlush := AppendLocked(m);
      if shouldFlush {
        TrySignal();
      }
    }

    /** `Flush` up to the handler call: null when there is nothing to hand over. The batch keeps the
        old backing array and the buffer gets a fresh one. */
    method TakeBatch() returns (batch: array?<Msg>, n: nat)
      requires Valid()
      modifies this`data, this`len, this`handedOut
      ensures Valid()
      ensures batch == null <==> old(View()).buffer == []
      ensures batch == null ==> View() == old(View()) && data == old(data) && handedOut == old(handedOut)
      ensures batch != null ==>
                && View() == Take(old(View())) && len == 0 && token == old(token)
                && n <= batch.Length && batch[..n] == old(View()).buffer == old(data[..len])
                && fresh(data) && handedOut == old(handedOut) + {batch}
    {
      if len == 0 {
        return null, 0;
      }
      batch, n := data, len;
      handedOut := handedOut + {data};
      data := new Msg[batchSize];
      len := 0;
    }

    /** `running.Swap(true)` at the head of Start; the caller launches the loop when this is true. */
    method StartSwap() returns (first: bool)
      requires Valid()
      modifies this`running
      ensures Valid() && View() == old(View()).(running := true) && first == !old(running)
    {
      first := !running;
      running := true;
    }

    /** `running.Swap(false)` at the head of Stop. */
    method StopSwap() returns (was: bool)
      requires Valid()
      modifies this`running
      ensures Valid() && View() == old(View()).(running := false) && was == old(running)
    {
      was := running;
      running := false;
    }

    /** `close(stopCh)`: a second close panics. */
    method CloseStopCh() returns (panicked: bool)
      requires Valid()
      modifies this`stopClosed
      ensures Valid() && View() == old(View()).(stopClosed := true) && panicked == old(stopClosed)
    {
      panicked := stopClosed;
      stopClosed := true;
    }

    /** Receive from flushCh. */
    method ReceiveToken()
      requires Valid()
      modifies this`token
      ensures Valid() && View() == old(View()).(token := false)
    {
      token := false;
    }

    /** `Stop` undisturbed: nothing unless it was running; a second close panics; otherwise the
        buffer is taken for the handler. */
    method Stop() returns (panicked: bool, batch: array?<Msg>, n: nat)
      requires Valid()
      modifies this
      ensures Valid() && !running
      ensures panicked == (old(running) && old(stopClosed))
      ensures !old(running) || panicked ==> batch == null && View() == old(View()).(running := false)
      ensures old(running) && !panicked ==>
                && View() == Take(old(View())).(running := false, stopClosed := true)
                && (batch == null <==> old(View()).buffer == [])
                && (batch != null ==> n <= batch.Length && batch[..n] == old(View()).buffer)
      ensures token == old(token)
    {
      panicked, batch, n := false, null, 0;
      var was := StopSwap();
      if !was {
        return;
      }
      panicked := CloseStopCh();
      if panicked {
        return;
      }
      batch, n := TakeBatch();
    }
  }

  /** Any Adds after a batch was taken leave the batch as it was. */
  method AddAll(bc: BatchConsumer, ms: seq<Msg>)
    requires bc.Valid()
    modifies bc, bc.data
    ensures bc.Valid() && (bc.data == old(bc.data) || fresh(bc.data))
    ensures bc.View().buffer == old(bc.View()).buffer + ms
    ensures bc.handedOut == old(bc.handedOut)
    ensures forall b :: b in bc.handedOut ==> b[..] == old(b[..])
  {
    for i := 0 to |ms|
      invariant bc.Valid() && (bc.data == old(bc.data) || fresh(bc.data))
      invariant bc.View().buffer == old(bc.View()).buffer + ms[..i]
      invariant bc.handedOut == old(bc.handedOut)
      invariant forall b :: b in bc.handedOut ==> b[..] == old(b[..])
    {
      bc.Add(ms[i]);
      assert ms[..i + 1] == ms[..i] + [ms[i]];
    }
    assert ms[..|ms|] == ms;
  }

  /** A batch taken from the buffer: a backing array and a length. */
  datatype Batch = Batch(data: array<Msg>, n: nat)

  /** The batches still say what was taken, and nobody appends to their arrays. */
  ghost predicate Kept(batches: seq<Batch>, taken: seq<seq<Msg>>, handedOut: set<array<Msg>>)
    reads handedOut
  {
    && |batches| == |taken|
    && forall k :: 0 <= k < |batches| ==>
         && batches[k].data in handedOut && batches[k].n <= batches[k].data.Length
         && batches[k].data[..batches[k].n] == taken[k]
  }

  /** The handler was called with the contents of these batches. */
  ghost predicate Called(calls: seq<seq<Msg>>, handed: seq<nat>, taken: seq<seq<Msg>>) {
    && |calls| == |handed|
    && forall i :: 0 <= i < |calls| ==> handed[i] < |taken| && calls[i] == taken[handed[i]]
  }

  /** A batch consumer with the goroutines that use it. Every step below works on the object's fields as
      the source does and is proved to be one step of BatchModel; `Valid` says the whole is in a state
      some schedule of that machine reaches, with every batch taken still in its own array and the
      handler called with exactly the batches the machine says. */
  class Runtime {
    const bc: BatchConsumer
    /** Where each goroutine is, and the batches they took, by number. */
    var threads: map<nat, Pc>
    var batches: seq<Batch>
    /** What the handler was called with, in call order. */
    var calls: seq<seq<Msg>>
    /** How many messages have been added. */
    var added: nat
    var contextDone: bool
    var panicked: bool
    ghost var model: State
    ghost var schedule: seq<Action>

    ghost predicate Valid()
      reads this, bc, bc.data, bc.handedOut
    {
      && bc.Valid()
      && model == Exec(Init(bc.batchSize), schedule)
      && model.sh == bc.View()
      && added == |model.hist.added|
      && threads == model.threads && contextDone == model.cancelled && panicked == model.panicked
      && Kept(batches, model.hist.taken, bc.handedOut)
      && Called(calls, model.hist.handed, model.hist.taken)
      && Numbered(threads, |batches|)
    }

    constructor (bc: BatchConsumer)
      requires bc.Valid() && bc.View() == InitShared(bc.batchSize)
      ensures Valid() && this.bc == bc && schedule == [] && threads == map[] && calls == []
    {
      this.bc := bc;
      threads, batches, calls, added, contextDone, panicked := map[], [], [], 0, false, false;
      model, schedule := Init(bc.batchSize), [];
    }

    ghost method Record(a: Action)
      requires model == Exec(Init(bc.batchSize), schedule)
      modifies this`model, this`schedule
      ensures model == Step(old(model), a) && schedule == old(schedule) + [a]
      ensures model == Exec(Init(bc.batchSize), schedule)
    {
      ExecOne(Init(bc.batchSize), schedule, a);
      model, schedule := Step(model, a), schedule + [a];
    }

    /** A goroutine calls a method. */
    method CallStep(t: nat, entry: Pc)
      requires Valid() && !panicked && t !in threads && IsEntry(entry)
      modifies this
      ensures Valid() && schedule == old(schedule) + [Call(t, entry)] && threads == old(threads)[t := entry]
    {
      hide Exec, Init;
      threads := threads[t := entry];
      Record(Call(t, entry));
    }

    /** `Add` under its lock. */
    method AddStep(t: nat, m: Msg)
      requires Valid() && !panicked && t in threads && threads[t] == AddEnter(m)
      modifies this, bc, bc.data
      ensures Valid() && schedule == old(schedule) + [Run(t)] && (bc.data == old(bc.data) || fresh(bc.data))
      ensures threads == if bc.len >= bc.batchSize then old(threads)[t := AddSignal] else old(threads) - {t}
      ensures bc.View().buffer == old(bc.View().buffer) + [m] && bc.token == old(bc.token)
    {
      hide Exec, Init;
      var shouldFlush := bc.AppendLocked(m);
      added := added + 1;
      threads := if shouldFlush then threads[t := AddSignal] else threads - {t};
      Record(Run(t));
    }

    /** The select at the end of `Add`. */
    method SignalStep(t: nat)
      requires Valid() && !panicked && t in threads && threads[t].AddSignal?
      modifies this, bc
      ensures Valid() && schedule == old(schedule) + [Run(t)] && bc.data == old(bc.data)
      ensures threads == old(threads) - {t} && bc.token && bc.View().buffer == old(bc.View().buffer)
    {
      hide Exec, Init;
      bc.TrySignal();
      threads := threads - {t};
      Record(Run(t));
    }

    /** `Flush` under the lock: take the buffer, or be done when there is nothing. */
    method FlushStep(t: nat) returns (took: bool)
      requires Valid() && !panicked && t in threads && threads[t].FlushEnter?
      modifies this, bc
      ensures Valid() && schedule == old(schedule) + [Run(t)] && (bc.data == old(bc.data) || fresh(bc.data))
      ensures took == (old(bc.View()).buffer != [])
      ensures bc.View().buffer == [] && bc.token == old(bc.token)
      ensures took ==> |batches| == |old(batches)| + 1 && old(batches) <= batches
                       && var b := batches[|old(batches)|];
                          b.n <= b.data.Length && b.data[..b.n] == old(bc.View()).buffer
      ensures var after := old(threads)[t].after;
              threads == if took then old(threads)[t := HandOver(|old(batches)|, after)]
                         else Resumed(old(threads), t, after)
    {
      hide Exec, Init;
      var batch, n := bc.TakeBatch();
      took := batch != null;
      if took {
        threads := threads[t := HandOver(|batches|, threads[t].after)];
        batches := batches + [Batch(batch, n)];
      } else {
        threads := Resumed(threads, t, threads[t].after);
      }
      Record(Run(t));
    }

    /** `bc.handler(ctx, batch)`. */
    method HandStep(t: nat)
      requires Valid() && !panicked && t in threads && threads[t].HandOver?
      modifies this
      ensures Valid() && schedule == old(schedule) + [Run(t)]
      ensures var pc := old(threads)[t];
              && threads == old(threads)[t := InHandler(pc.after)] && batches == old(batches)
              && pc.k < |batches| && batches[pc.k].n <= batches[pc.k].data.Length
              && calls == old(calls) + [batches[pc.k].data[..batches[pc.k].n]]
              && calls == old(calls) + [old(model).hist.taken[pc.k]]
    {
      hide Exec, Init;
      var pc := threads[t];
      var batch := batches[pc.k];
      calls := calls + [batch.data[..batch.n]];
      threads := threads[t := InHandler(pc.after)];
      Record(Run(t));
    }

    /** The handler returns. */
    method ReturnStep(t: nat)
      requires Valid() && !panicked && t in threads && threads[t].InHandler?
      modifies this
      ensures Valid() && schedule == old(schedule) + [Run(t)]
      ensures threads == Resumed(old(threads), t, old(threads)[t].after)
    {
      hide Exec, Init;
      threads := Resumed(threads, t, threads[t].after);
      Record(Run(t));
    }

    /** `Start`: only the caller that flips the flag becomes the loop. */
    method StartStep(t: nat) returns (first: bool)
      requires Valid() && !panicked && t in threads && threads[t].StartEnter?
      modifies this, bc
      ensures Valid() && schedule == old(schedule) + [Run(t)] && bc.data == old(bc.data)
      ensures first == !old(bc.running) && bc.running
      ensures threads == if first then old(threads)[t := LoopSelect] else old(threads) - {t}
    {
      hide Exec, Init;
      first := bc.StartSwap();
      threads := if first then threads[t := LoopSelect] else threads - {t};
      Record(Run(t));
    }

    /** The swap in `Stop`. */
    method StopStep(t: nat) returns (was: bool)
      requires Valid() && !panicked && t in threads && threads[t].StopEnter?
      modifies this, bc
      ensures Valid() && schedule == old(schedule) + [Run(t)] && bc.data == old(bc.data)
      ensures was == old(bc.running) && !bc.running
      ensures threads == if was then old(threads)[t := Pc.StopClose] else old(threads) - {t}
    {
      hide Exec, Init;
      was := bc.StopSwap();
      threads := if was then threads[t := Pc.StopClose] else threads - {t};
      Record(Run(t));
    }

    /** The close in `Stop`, which may crash the program. */
    method CloseStep(t: nat)
      requires Valid() && !panicked && t in threads && threads[t].StopClose?
      modifies this, bc
      ensures Valid() && schedule == old(schedule) + [Run(t)] && bc.data == old(bc.data)
      ensures panicked == old(bc.stopClosed) && bc.stopClosed
      ensures threads == if panicked then old(threads) - {t}
                         else old(threads)[t := FlushEnter(StopCall(old(added)))]
    {
      hide Exec, Init;
      panicked := bc.CloseStopCh();
      threads := if panicked then threads - {t} else threads[t := FlushEnter(StopCall(added))];
      Record(Run(t));
    }

    /** The loop's select takes a ready branch. */
    method SelectStep(t: nat, branch: Branch)
      requires Valid() && !panicked && t in threads && threads[t].LoopSelect? && Ready(model, branch)
      modifies this, bc
      ensures Valid() && schedule == old(schedule) + [Select(t, branch)] && bc.data == old(bc.data)
      ensures bc.token == (old(bc.token) && !branch.Token?) && bc.View().buffer == old(bc.View().buffer)
      ensures threads
              == old(threads)[t := FlushEnter(if branch.Tick? || branch.Token? then LoopAgain else LoopExit)]
    {
      hide Exec, Init;
      if branch.Token? {
        bc.ReceiveToken();
      }
      threads := threads[t := FlushEnter(if branch.Tick? || branch.Token? then LoopAgain else LoopExit)];
      Record(Select(t, branch));
    }

    method CancelStep()
      requires Valid() && !panicked
      modifies this
      ensures Valid() && schedule == old(schedule) + [Cancel] && threads == old(threads)
    {
      hide Exec, Init;
      contextDone := true;
      Record(Cancel);
    }

    // ------------------------------------------------------- other goroutines

    predicate BranchReady(branch: Branch)
      reads this, bc
    {
      match branch
      case Tick => true
      case Token => bc.token
      case Stopped => bc.stopClosed
      case ContextDone => contextDone
    }

    /** Whether an action can take effect, by the fields. */
    predicate Able(a: Action)
      reads this, bc
    {
      !panicked &&
      match a
      case Call(t, entry) => t !in threads && IsEntry(entry)
      case Run(t) => t in threads && !threads[t].LoopSelect?
      case Select(t, branch) => t in threads && threads[t].LoopSelect? && BranchReady(branch)
      case Cancel => true
    }

    /** What the fields show of the machine. */
    lemma Shown()
      requires Valid()
      ensures model == Exec(Init(bc.batchSize), schedule)
      ensures threads == model.threads && panicked == model.panicked
      ensures forall a :: Able(a) <==> Enabled(model, a)
      ensures forall branch :: BranchReady(branch) <==> Ready(model, branch)
    {
      hide Exec, Init, Kept, Called, Numbered;
    }

    /** An action that cannot be taken now. */
    ghost method Skip(a: Action)
      requires Valid() && !Able(a)
      modifies this`model, this`schedule
      ensures Valid() && schedule == old(schedule) + [a] && model == old(model)
    {
      Shown();
      hide Exec, Init, Kept, Called, Numbered, Enabled;
      Record(a);
    }

    /** One action of any goroutine. */
    method Act(a: Action)
      requires Valid()
      modifies this, bc, bc.data
      ensures Valid() && schedule == old(schedule) + [a] && (bc.data == old(bc.data) || fresh(bc.data))
    {
      Shown();
      hide Valid;
      if !Able(a) {
        Skip(a);
        return;
      }
      match a {
        case Call(t, entry) => CallStep(t, entry);
        case Run(t) =>
          match threads[t] {
            case AddEnter(m) => AddStep(t, m);
            case AddSignal => SignalStep(t);
            case FlushEnter(_) =>
              var _ := FlushStep(t);
            case HandOver(_, _) => HandStep(t);
            case InHandler(_) => ReturnStep(t);
            case StartEnter =>
              var _ := StartStep(t);
            case StopEnter =>
              var _ := StopStep(t);
            case StopClose => CloseStep(t);
          }
        case Select(t, branch) => SelectStep(t, branch);
        case Cancel => CancelStep();
      }
    }

    /** Goroutine t is where it was. */
    twostate predicate Stays(t: nat)
      reads this
    {
      (t in threads <==> t in old(threads)) && (t in threads ==> threads[t] == old(threads[t]))
    }

    /** What other goroutines do between two steps of goroutine t: exactly these actions, in order. */
    method Interfere(t: nat, acts: seq<Action>)
      requires Valid() && forall i :: 0 <= i < |acts| ==> ByOther(acts[i], t)
      modifies this, bc, bc.data
      ensures Valid() && schedule == old(schedule) + acts && (bc.data == old(bc.data) || fresh(bc.data))
      ensures Stays(t)
    {
      hide Valid;
      for i := 0 to |acts|
        invariant Valid() && schedule == old(schedule) + acts[..i]
        invariant bc.data == old(bc.data) || fresh(bc.data)
        invariant Stays(t)
      {
        assert acts[..i + 1] == acts[..i] + [acts[i]];
        Other(t, acts[i]);
      }
      assert acts[..|acts|] == acts;
    }

    method Other(t: nat, a: Action)
      requires Valid() && ByOther(a, t)
      modifies this, bc, bc.data
      ensures Valid() && schedule == old(schedule) + [a] && (bc.data == old(bc.data) || fresh(bc.data))
      ensures Stays(t)
    {
      hide Valid, Exec, Init;
      Shown();
      ghost var before := schedule;
      Act(a);
      Shown();
      ExecOne(Init(bc.batchSize), before, a);
      OtherKeepsThread(Exec(Init(bc.batchSize), before), a, t);
    }

    /** Turn n of goroutine t begins: the others go first. */
    method BeginTurn(env: Surroundings, ghost start: seq<Action>, t: nat, n: nat)
      requires Valid() && OthersOnly(env, t) && schedule == Turns(bc.batchSize, start, env, t, n)
      modifies this, bc, bc.data
      ensures Valid() && (bc.data == old(bc.data) || fresh(bc.data)) && Stays(t)
      ensures schedule == BeforeTurn(bc.batchSize, start, env, t, n)
      ensures model == Exec(Init(bc.batchSize), schedule)
      ensures threads == model.threads && panicked == model.panicked
      ensures forall branch :: BranchReady(branch) <==> Ready(model, branch)
    {
      hide Valid, Exec, Init;
      Interfere(t, env.others(n));
      Shown();
    }

    // ------------------------------------------------------------- the methods

    /** Where goroutine t is once its Flush is done: back at the loop's select, or gone. */
    predicate Done(t: nat, after: After)
      reads this
    {
      if after.LoopAgain? then t in threads && threads[t].LoopSelect? else t !in threads
    }

    /** `Flush` from turn `from` on: lock, hand over, return; cut short only by a crash. */
    method Flush(env: Surroundings, ghost start: seq<Action>, t: nat, from: nat) returns (n: nat)
      requires Valid() && OthersOnly(env, t) && schedule == Turns(bc.batchSize, start, env, t, from)
      requires t in threads && threads[t].FlushEnter?
      modifies this, bc, bc.data
      ensures Valid() && (bc.data == old(bc.data) || fresh(bc.data))
      ensures n > from && schedule == Turns(bc.batchSize, start, env, t, n)
      ensures panicked || Done(t, old(threads)[t].after)
    {
      hide Valid, Exec, Init, Turns, BeforeTurn, OthersOnly;
      n := from;
      BeginTurn(env, start, t, n);
      TurnTaken(bc.batchSize, start, env, t, n, if panicked then [] else [Run(t)]);
      n := n + 1;
      if panicked {
        return;
      }
      var took := FlushStep(t);
      if took {
        n := HandOverBatch(env, start, t, n);
      }
    }

    /** The handler call of `Flush`. */
    method HandOverBatch(env: Surroundings, ghost start: seq<Action>, t: nat, from: nat) returns (n: nat)
      requires Valid() && OthersOnly(env, t) && schedule == Turns(bc.batchSize, start, env, t, from)
      requires t in threads && threads[t].HandOver?
      modifies this, bc, bc.data
      ensures Valid() && (bc.data == old(bc.data) || fresh(bc.data))
      ensures n > from && schedule == Turns(bc.batchSize, start, env, t, n)
      ensures panicked || Done(t, old(threads)[t].after)
    {
      hide Valid, Exec, Init, Turns, BeforeTurn, OthersOnly;
      n := from;
      BeginTurn(env, start, t, n);
      TurnTaken(bc.batchSize, start, env, t, n, if panicked then [] else [Run(t)]);
      n := n + 1;
      if panicked {
        return;
      }
      HandStep(t);
      BeginTurn(env, start, t, n);
      TurnTaken(bc.batchSize, start, env, t, n, if panicked then [] else [Run(t)]);
      n := n + 1;
      if panicked {
        return;
      }
      ReturnStep(t);
    }

    /** The background loop of `Start`, watched for `steps` turns or until it leaves: whichever branch
        its select takes it flushes, and it leaves after the stop and the context branch. It takes
        exactly the turns its place in the program dictates. */
    method Loop(env: Surroundings, ghost start: seq<Action>, t: nat, from: nat, steps: nat) returns (n: nat)
      requires Valid() && OthersOnly(env, t) && schedule == Turns(bc.batchSize, start, env, t, from)
      requires t in threads && threads[t].LoopSelect?
      modifies this, bc, bc.data
      ensures Valid() && (bc.data == old(bc.data) || fresh(bc.data))
      ensures n >= from && schedule == Turns(bc.batchSize, start, env, t, n)
      ensures n >= steps || panicked || t !in threads
    {
      hide Valid, Exec, Init, Turns, BeforeTurn, OthersOnly;
      n := from;
      while n < steps
        invariant Valid() && (bc.data == old(bc.data) || fresh(bc.data))
        invariant n >= from && schedule == Turns(bc.batchSize, start, env, t, n)
        invariant t in threads && threads[t].LoopSelect?
      {
        BeginTurn(env, start, t, n);
        var branch := env.pick(n);
        var ready := !panicked && BranchReady(branch);
        TurnTaken(bc.batchSize, start, env, t, n, if ready then [Select(t, branch)] else []);
        n := n + 1;
        if panicked {
          return;
        }
        if ready {
          SelectStep(t, branch);
          n := Flush(env, start, t, n);
          if panicked || branch.Stopped? || branch.ContextDone? {
            return;
          }
        }
      }
    }

    /** `Start`, by a new goroutine that becomes the loop if it is the first. */
    method Start(env: Surroundings, t: nat, steps: nat) returns (n: nat)
      requires Valid() && OthersOnly(env, t) && !panicked && t !in threads
      modifies this, bc, bc.data
      ensures Valid() && (bc.data == old(bc.data) || fresh(bc.data))
      ensures schedule == Turns(bc.batchSize, old(schedule) + [Call(t, StartEnter)], env, t, n)
      ensures n >= steps || panicked || t !in threads
    {
      hide Valid, Exec, Init, Turns, BeforeTurn, OthersOnly;
      CallStep(t, StartEnter);
      ghost var start := schedule;
      NoTurns(bc.batchSize, start, env, t);
      BeginTurn(env, start, t, 0);
      TurnTaken(bc.batchSize, start, env, t, 0, if panicked then [] else [Run(t)]);
      n := 1;
      if panicked {
        return;
      }
      var first := StartStep(t);
      if first {
        n := Loop(env, start, t, n, steps);
      }
    }

    /** `Add`: append under the lock, then signal outside it when the batch was full. */
    method Add(env: Surroundings, t: nat, m: Msg) returns (n: nat)
      requires Valid() && OthersOnly(env, t) && !panicked && t !in threads
      modifies this, bc, bc.data
      ensures Valid() && (bc.data == old(bc.data) || fresh(bc.data))
      ensures schedule == Turns(bc.batchSize, old(schedule) + [Call(t, AddEnter(m))], env, t, n)
      ensures panicked || t !in threads
    {
      hide Valid, Exec, Init, Turns, BeforeTurn, OthersOnly;
      CallStep(t, AddEnter(m));
      ghost var start := schedule;
      NoTurns(bc.batchSize, start, env, t);
      BeginTurn(env, start, t, 0);
      TurnTaken(bc.batchSize, start, env, t, 0, if panicked then [] else [Run(t)]);
      n := 1;
      if panicked {
        return;
      }
      AddStep(t, m);
      if t in threads {
        BeginTurn(env, start, t, n);
        TurnTaken(bc.batchSize, start, env, t, n, if panicked then [] else [Run(t)]);
        n := n + 1;
        if !panicked {
          SignalStep(t);
        }
      }
    }

    /** `Stop`: swap the flag, close the channel, flush. */
    method Stop(env: Surroundings, t: nat) returns (n: nat)
      requires Valid() && OthersOnly(env, t) && !panicked && t !in threads
      modifies this, bc, bc.data
      ensures Valid() && (bc.data == old(bc.data) || fresh(bc.data))
      ensures schedule == Turns(bc.batchSize, old(schedule) + [Call(t, StopEnter)], env, t, n)
      ensures panicked || t !in threads
    {
      hide Valid, Exec, Init, Turns, BeforeTurn, OthersOnly;
      CallStep(t, StopEnter);
      ghost var start := schedule;
      NoTurns(bc.batchSize, start, env, t);
      BeginTurn(env, start, t, 0);
      TurnTaken(bc.batchSize, start, env, t, 0, if panicked then [] else [Run(t)]);
      n := 1;
      if panicked {
        return;
      }
      var was := StopStep(t);
      if !was {
        return;
      }
      BeginTurn(env, start, t, n);
      TurnTaken(bc.batchSize, start, env, t, n, if panicked then [] else [Run(t)]);
      n := n + 1;
      if panicked {
        return;
      }
      CloseStep(t);
      if !panicked {
        n := Flush(env, start, t, n);
      }
    }

    /** The machine's guarantees, for the object's own fields: when no call is in progress and the loop
        has no token, the buffer is not full, and the handler was called with every batch taken, each
        exactly once. */
    lemma Guarantee()
      requires Valid()
      ensures model.hist.added == Flatten(model.hist.taken) + bc.View().buffer
      ensures forall k :: 0 <= k < |batches| ==> batches[k].data[..batches[k].n] == model.hist.taken[k]
      ensures Quiescent(model) && !bc.token ==> |bc.View().buffer| < bc.batchSize
      ensures Quiescent(model) ==> |calls| == |batches|
                                   && forall k :: 0 <= k < |batches| ==> batches[k].data[..batches[k].n] in calls
    {
      NoLostWakeUp(bc.batchSize, schedule);
      ExactlyOnceInOrder(bc.batchSize, schedule);
      hide Exec, Init;
      if Quiescent(model) {
        AllOnce(model.hist.handed, |batches|);
        forall k | 0 <= k < |batches| ensures batches[k].data[..batches[k].n] in calls {
          assert k in model.hist.handed;
          var i :| 0 <= i < |model.hist.handed| && model.hist.handed[i] == k;
          assert calls[i] == model.hist.taken[k];
        }
      }
    }
  }

  /** Numbers below n, each listed once, are n many. */
  lemma {:induction false} AllOnce(xs: seq<nat>, n: nat)
    requires forall i :: 0 <= i < |xs| ==> xs[i] < n
    requires forall i, j :: 0 <= i < j < |xs| ==> xs[i] != xs[j]
    requires forall k :: 0 <= k < n ==> k in xs
    ensures |xs| == n
  {
    if n == 0 {
      assert xs == [];
    } else {
      assert n - 1 in xs;
      var i :| 0 <= i < |xs| && xs[i] == n - 1;
      var ys := xs[..i] + xs[i + 1..];
      forall k | 0 <= k < n - 1 ensures k in ys {
        assert k in xs;
        var j :| 0 <= j < |xs| && xs[j] == k;
        assert ys[if j < i then j else j - 1] == k;
      }
      AllOnce(ys, n - 1);
    }
  }

  /** Goroutines hold batches that have been taken. */
  ghost predicate Numbered(threads: map<nat, Pc>, count: nat) {
    forall t :: t in threads && threads[t].HandOver? ==> threads[t].k < count
  }
}
