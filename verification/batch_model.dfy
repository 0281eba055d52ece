/** `BatchConsumer` (pkg/consumer/consumer.go:250-347) as a state machine. Any number of goroutines
    run Add, Flush, Start, Stop and the background loop; one action is one critical section, one
    atomic swap or one channel operation of one of them. */
module BatchModel {
  type Msg = nat

  /** The fields of the object. `token`: flushCh (capacity one) holds its element. */
  datatype Shared = Shared(batchSize: nat, buffer: seq<Msg>, token: bool, stopClosed: bool, running: bool)

  /** What the caller of Flush does next. `StopCall(mark)`: Stop returns; `mark` messages had been
      added when it closed the stop channel. */
  datatype After = Return | StopCall(mark: nat) | LoopAgain | LoopExit

  /** The next step of a goroutine. */
  datatype Pc =
    | AddEnter(m: Msg)
    | AddSignal                       // unlocked with the batch full, before the select on flushCh
    | FlushEnter(after: After)        // before the lock
    | HandOver(k: nat, after: After)  // took the k-th batch, handler not called yet
    | InHandler(after: After)
    | LoopSelect
    | StartEnter
    | StopEnter
    | StopClose

  datatype Branch = Tick | Token | Stopped | ContextDone

  datatype Action =
    | Call(t: nat, entry: Pc)         // goroutine t calls a method
    | Run(t: nat)                     // its next step, other than the loop's select
    | Select(t: nat, branch: Branch)  // the loop's select takes a ready branch
    | Cancel

  /** `added`: Adds in lock order; `taken`: batches in lock order; `handed`: which batches the
      handler was called with, in call order; `stopped`: the marks of the Stops that returned. */
  datatype History = History(added: seq<Msg>, taken: seq<seq<Msg>>, handed: seq<nat>, stopped: seq<nat>)

  datatype State = State(sh: Shared, threads: map<nat, Pc>, hist: History, cancelled: bool, panicked: bool)

  /** A usable size is kept, anything below one becomes 100. */
  function ClampBatch(batchSize: int): (b: nat)
    ensures b >= 1 && (b == batchSize || (batchSize < 1 && b == 100))
  {
    if batchSize < 1 then 100 else batchSize
  }

  function InitShared(batchSize: nat): Shared { Shared(batchSize, [], false, false, false) }

  function Init(batchSize: nat): State {
    State(InitShared(batchSize), map[], History([], [], [], []), false, false)
  }

  // ------------------------------------------------------ the critical sections

  function Append(sh: Shared, m: Msg): Shared { sh.(buffer := sh.buffer + [m]) }

  predicate IsFull(sh: Shared) { |sh.buffer| >= sh.batchSize }

  function Signal(sh: Shared): Shared { sh.(token := true) }

  function Take(sh: Shared): Shared { sh.(buffer := []) }

  predicate IsEntry(pc: Pc) {
    pc.AddEnter? || pc == FlushEnter(Return) || pc.StartEnter? || pc.StopEnter?
  }

  predicate Ready(s: State, branch: Branch) {
    match branch
    case Tick => true
    case Token => s.sh.token
    case Stopped => s.sh.stopClosed
    case ContextDone => s.cancelled
  }

  predicate Enabled(s: State, a: Action) {
    !s.panicked &&
    match a
    case Call(t, entry) => t !in s.threads && IsEntry(entry)
    case Run(t) => t in s.threads && !s.threads[t].LoopSelect?
    case Select(t, branch) => t in s.threads && s.threads[t].LoopSelect? && Ready(s, branch)
    case Cancel => true
  }

  function Goto(s: State, t: nat, pc: Pc): State { s.(threads := s.threads[t := pc]) }

  function Leave(s: State, t: nat): State { s.(threads := s.threads - {t}) }

  function Resume(s: State, t: nat, after: After): State {
    match after
    case Return => Leave(s, t)
    case StopCall(mark) => Leave(s, t).(hist := s.hist.(stopped := s.hist.stopped + [mark]))
    case LoopAgain => Goto(s, t, LoopSelect)
    case LoopExit => Leave(s, t)
  }

  /** Where the goroutines are after t's Flush, called with `after`, is done. */
  function Resumed(threads: map<nat, Pc>, t: nat, after: After): map<nat, Pc> {
    if after.LoopAgain? then threads[t := LoopSelect] else threads - {t}
  }

  function RunAdd(s: State, t: nat, m: Msg): State {
    var sh := Append(s.sh, m);
    var s1 := s.(sh := sh, hist := s.hist.(added := s.hist.added + [m]));
    if IsFull(sh) then Goto(s1, t, AddSignal) else Leave(s1, t)
  }

  function RunFlush(s: State, t: nat, after: After): State {
    if s.sh.buffer == [] then Resume(s, t, after)
    else
      Goto(s.(sh := Take(s.sh), hist := s.hist.(taken := s.hist.taken + [s.sh.buffer])), t,
           HandOver(|s.hist.taken|, after))
  }

  function RunStep(s: State, t: nat): State
    requires t in s.threads && !s.threads[t].LoopSelect?
  {
    match s.threads[t]
    case AddEnter(m) => RunAdd(s, t, m)
    case AddSignal => Leave(s.(sh := Signal(s.sh)), t)
    case FlushEnter(after) => RunFlush(s, t, after)
    case HandOver(k, after) => Goto(s.(hist := s.hist.(handed := s.hist.handed + [k])), t, InHandler(after))
    case InHandler(after) => Resume(s, t, after)
    case StartEnter => if s.sh.running then Leave(s, t) else Goto(s.(sh := s.sh.(running := true)), t, LoopSelect)
    case StopEnter => if !s.sh.running then Leave(s, t) else Goto(s.(sh := s.sh.(running := false)), t, StopClose)
    case StopClose =>
      if s.sh.stopClosed then Leave(s, t).(panicked := true)
      else Goto(s.(sh := s.sh.(stopClosed := true)), t, FlushEnter(StopCall(|s.hist.added|)))
  }

  function SelectStep(s: State, t: nat, branch: Branch): State {
    var s1 := if branch.Token? then s.(sh := s.sh.(token := false)) else s;
    Goto(s1, t, FlushEnter(if branch.Tick? || branch.Token? then LoopAgain else LoopExit))
  }

  function Apply(s: State, a: Action): State
    requires Enabled(s, a)
  {
    match a
    case Call(t, entry) => Goto(s, t, entry)
    case Run(t) => RunStep(s, t)
    case Select(t, branch) => SelectStep(s, t, branch)
    case Cancel => s.(cancelled := true)
  }

  /** An action that is not enabled does nothing, so every action sequence is a schedule. */
  function Step(s: State, a: Action): State { if Enabled(s, a) then Apply(s, a) else s }

  function Exec(s: State, acts: seq<Action>): State {
    if acts == [] then s else Step(Exec(s, acts[..|acts| - 1]), acts[|acts| - 1])
  }

  lemma ExecOne(s: State, acts: seq<Action>, a: Action)
    ensures Exec(s, acts + [a]) == Step(Exec(s, acts), a)
  {
    assert (acts + [a])[..|acts|] == acts;
  }

  // ------------------------------------------------------------ no lost wake-up

  /** A goroutine that is about to signal, or is about to take the buffer. */
  predicate Rescues(pc: Pc) { pc.AddSignal? || pc.FlushEnter? }

  ghost predicate WakeUp(s: State) {
    IsFull(s.sh) ==> s.sh.token || exists t :: t in s.threads && Rescues(s.threads[t])
  }

  /** A step that leaves the buffer full and no token makes its goroutine a rescuer, or neither filled
      the buffer nor took the token. */
  lemma MoverRescues(s: State, a: Action)
    requires Enabled(s, a) && !a.Cancel? && s.sh.batchSize >= 1
    requires IsFull(Apply(s, a).sh) && !Apply(s, a).sh.token
    ensures var s' := Apply(s, a);
            || (a.t in s'.threads && Rescues(s'.threads[a.t]))
            || (IsFull(s.sh) && !s.sh.token && (a.t in s.threads ==> !Rescues(s.threads[a.t])))
  {
  }

  lemma OthersStay(s: State, a: Action, t: nat)
    requires Enabled(s, a) && !a.Cancel? && t != a.t && t in s.threads
    ensures t in Apply(s, a).threads && Apply(s, a).threads[t] == s.threads[t]
  {
  }

  lemma WakeUpStep(s: State, a: Action)
    requires WakeUp(s) && s.sh.batchSize >= 1 && Enabled(s, a)
    ensures WakeUp(Apply(s, a))
  {
    var s' := Apply(s, a);
    if a.Cancel? {
    } else if IsFull(s'.sh) && !s'.sh.token {
      hide Apply, Enabled, IsFull, Rescues;
      MoverRescues(s, a);
      if !(a.t in s'.threads && Rescues(s'.threads[a.t])) {
        var w :| w in s.threads && Rescues(s.threads[w]);
        OthersStay(s, a, w);
      }
    }
  }

  // -------------------------------------------------- handed over exactly once

  function Flatten(batches: seq<seq<Msg>>): seq<Msg> {
    if batches == [] then [] else Flatten(batches[..|batches| - 1]) + batches[|batches| - 1]
  }

  ghost predicate Conserved(sh: Shared, h: History) {
    && h.added == Flatten(h.taken) + sh.buffer
    && forall k :: 0 <= k < |h.taken| ==> h.taken[k] != []
  }

  ghost predicate Holds(threads: map<nat, Pc>, t: nat, k: nat) {
    t in threads && threads[t].HandOver? && threads[t].k == k
  }

  /** Every batch taken is with exactly one goroutine about to call the handler, or the handler has
      been called with it, once. */
  ghost predicate HandedOnce(threads: map<nat, Pc>, handed: seq<nat>, count: nat) {
    && (forall i :: 0 <= i < |handed| ==> handed[i] < count)
    && (forall i, j :: 0 <= i < j < |handed| ==> handed[i] != handed[j])
    && (forall t: nat, k: nat :: Holds(threads, t, k) ==> k < count && k !in handed)
    && (forall t: nat, u: nat, k: nat :: Holds(threads, t, k) && Holds(threads, u, k) ==> t == u)
    && (forall k :: 0 <= k < count ==> k in handed || exists t :: Holds(threads, t, k))
  }

  lemma ConservedAdd(sh: Shared, h: History, m: Msg)
    requires Conserved(sh, h)
    ensures Conserved(Append(sh, m), h.(added := h.added + [m]))
  {
    assert Flatten(h.taken) + (sh.buffer + [m]) == (Flatten(h.taken) + sh.buffer) + [m];
  }

  lemma ConservedTake(sh: Shared, h: History)
    requires Conserved(sh, h) && sh.buffer != []
    ensures Conserved(Take(sh), h.(taken := h.taken + [sh.buffer]))
  {
    assert (h.taken + [sh.buffer])[..|h.taken|] == h.taken;
    assert Flatten(h.taken + [sh.buffer]) + [] == Flatten(h.taken) + sh.buffer;
  }

  lemma ConservedStep(s: State, a: Action)
    requires Conserved(s.sh, s.hist) && Enabled(s, a)
    ensures Conserved(Apply(s, a).sh, Apply(s, a).hist)
  {
    if a.Run? {
      match s.threads[a.t]
      case AddEnter(m) => ConservedAdd(s.sh, s.hist, m);
      case FlushEnter(_) => if s.sh.buffer != [] { ConservedTake(s.sh, s.hist); }
      case _ =>
    }
  }

  /** The goroutines holding a batch are the same. */
  ghost predicate SameHolders(threads: map<nat, Pc>, threads': map<nat, Pc>) {
    forall t: nat, k: nat :: Holds(threads', t, k) <==> Holds(threads, t, k)
  }

  lemma HandedSame(threads: map<nat, Pc>, threads': map<nat, Pc>, handed: seq<nat>, count: nat)
    requires HandedOnce(threads, handed, count) && SameHolders(threads, threads')
    ensures HandedOnce(threads', handed, count)
  {
    forall k | 0 <= k < count ensures k in handed || exists t :: Holds(threads', t, k) {
      if k !in handed {
        var t :| Holds(threads, t, k);
        assert Holds(threads', t, k);
      }
    }
  }

  lemma HandedTake(threads: map<nat, Pc>, handed: seq<nat>, count: nat, t: nat, after: After)
    requires HandedOnce(threads, handed, count)
    requires t in threads ==> !threads[t].HandOver?
    ensures HandedOnce(threads[t := HandOver(count, after)], handed, count + 1)
  {
    var threads' := threads[t := HandOver(count, after)];
    forall u: nat, k: nat | Holds(threads', u, k) ensures if u == t then k == count else Holds(threads, u, k) {
    }
    forall k | 0 <= k < count + 1 ensures k in handed || exists u :: Holds(threads', u, k) {
      if k == count {
        assert Holds(threads', t, k);
      } else if k !in handed {
        var u :| Holds(threads, u, k);
        assert Holds(threads', u, k);
      }
    }
  }

  lemma HandedCall(threads: map<nat, Pc>, handed: seq<nat>, count: nat, t: nat, after: After)
    requires HandedOnce(threads, handed, count)
    requires t in threads && threads[t].HandOver?
    ensures HandedOnce(threads[t := InHandler(after)], handed + [threads[t].k], count)
  {
    var threads', handed', mine := threads[t := InHandler(after)], handed + [threads[t].k], threads[t].k;
    assert Holds(threads, t, mine);
    forall u: nat, k: nat | Holds(threads', u, k) ensures u != t && Holds(threads, u, k) && k != mine {
      assert Holds(threads, u, k);
    }
    assert handed'[|handed|] == mine && handed <= handed';
    forall k | 0 <= k < count ensures k in handed' || exists u :: Holds(threads', u, k) {
      if k !in handed && k != mine {
        var u :| Holds(threads, u, k);
        assert Holds(threads', u, k);
      }
    }
  }

  lemma OtherStepsKeepHolders(s: State, a: Action)
    requires Enabled(s, a)
    requires a.Run? ==> !s.threads[a.t].HandOver?
    requires a.Run? && s.threads[a.t].FlushEnter? ==> s.sh.buffer == []
    ensures SameHolders(s.threads, Apply(s, a).threads)
    ensures Apply(s, a).hist.handed == s.hist.handed && Apply(s, a).hist.taken == s.hist.taken
  {
  }

  lemma HandedStep(s: State, a: Action)
    requires HandedOnce(s.threads, s.hist.handed, |s.hist.taken|) && Enabled(s, a)
    ensures var s' := Apply(s, a); HandedOnce(s'.threads, s'.hist.handed, |s'.hist.taken|)
  {
    hide HandedOnce;
    if a.Run? && s.threads[a.t].HandOver? {
      HandedCall(s.threads, s.hist.handed, |s.hist.taken|, a.t, s.threads[a.t].after);
    } else if a.Run? && s.threads[a.t].FlushEnter? && s.sh.buffer != [] {
      HandedTake(s.threads, s.hist.handed, |s.hist.taken|, a.t, s.threads[a.t].after);
    } else {
      OtherStepsKeepHolders(s, a);
      HandedSame(s.threads, Apply(s, a).threads, s.hist.handed, |s.hist.taken|);
    }
  }

  // ---------------------------------------------------------------- Stop flushes

  /** A Stop past its flush has seen everything up to its mark taken. */
  predicate MarkOk(pc: Pc, added: nat, flushed: nat) {
    && (pc.FlushEnter? && pc.after.StopCall? ==> pc.after.mark <= added)
    && ((pc.HandOver? || pc.InHandler?) && pc.after.StopCall? ==> pc.after.mark <= flushed)
  }

  ghost predicate StopMarks(threads: map<nat, Pc>, stopped: seq<nat>, added: nat, flushed: nat) {
    && (forall t :: t in threads ==> MarkOk(threads[t], added, flushed))
    && (forall i :: 0 <= i < |stopped| ==> stopped[i] <= flushed)
  }

  function Flushed(h: History): nat { |Flatten(h.taken)| }

  lemma CountsGrow(s: State, a: Action)
    requires Enabled(s, a) && Conserved(s.sh, s.hist)
    ensures var h, h' := s.hist, Apply(s, a).hist;
            && |h.added| <= |h'.added| && Flushed(h) <= Flushed(h') && Flushed(h) <= |h.added|
            && (a.Run? && s.threads[a.t].FlushEnter? ==> Flushed(h') == |h.added|)
  {
    if a.Run? && s.threads[a.t].FlushEnter? && s.sh.buffer != [] {
      assert (s.hist.taken + [s.sh.buffer])[..|s.hist.taken|] == s.hist.taken;
    }
  }

  lemma MovedThreadMark(s: State, a: Action, added: nat, flushed: nat)
    requires Enabled(s, a) && !a.Cancel?
    requires a.t in s.threads ==> MarkOk(s.threads[a.t], |s.hist.added|, Flushed(s.hist))
    requires |s.hist.added| <= added && Flushed(s.hist) <= flushed
    requires a.Run? && s.threads[a.t].FlushEnter? ==> flushed == |s.hist.added|
    ensures var s' := Apply(s, a);
            && (a.t in s'.threads ==> MarkOk(s'.threads[a.t], added, flushed))
            && (forall u :: u in s'.threads && u != a.t ==> u in s.threads && s'.threads[u] == s.threads[u])
            && (s'.hist.stopped == s.hist.stopped
                || exists mark :: mark <= flushed && s'.hist.stopped == s.hist.stopped + [mark])
  {
  }

  lemma StopMarksStep(s: State, a: Action)
    requires StopMarks(s.threads, s.hist.stopped, |s.hist.added|, Flushed(s.hist))
    requires Conserved(s.sh, s.hist) && Enabled(s, a)
    ensures var s' := Apply(s, a); StopMarks(s'.threads, s'.hist.stopped, |s'.hist.added|, Flushed(s'.hist))
  {
    CountsGrow(s, a);
    if !a.Cancel? {
      var added, flushed := |Apply(s, a).hist.added|, Flushed(Apply(s, a).hist);
      MovedThreadMark(s, a, added, flushed);
      hide Apply, Flushed, Enabled;
    }
  }

  // ------------------------------------------------------------ all invariants

  ghost predicate Inv(s: State) {
    && WakeUp(s)
    && Conserved(s.sh, s.hist)
    && HandedOnce(s.threads, s.hist.handed, |s.hist.taken|)
    && StopMarks(s.threads, s.hist.stopped, |s.hist.added|, Flushed(s.hist))
    && s.sh.batchSize >= 1
  }

  lemma BatchSizeStep(s: State, a: Action)
    requires Enabled(s, a)
    ensures Apply(s, a).sh.batchSize == s.sh.batchSize
  {
  }

  lemma InvStep(s: State, a: Action)
    requires Inv(s)
    ensures Inv(Step(s, a))
  {
    if Enabled(s, a) {
      WakeUpStep(s, a);
      ConservedStep(s, a);
      HandedStep(s, a);
      StopMarksStep(s, a);
      BatchSizeStep(s, a);
      hide WakeUp, Conserved, HandedOnce, StopMarks, Apply, Enabled;
    }
  }

  lemma {:induction false} Invariant(batchSize: nat, acts: seq<Action>)
    requires batchSize >= 1
    ensures Inv(Exec(Init(batchSize), acts))
  {
    if acts != [] {
      Invariant(batchSize, acts[..|acts| - 1]);
      InvStep(Exec(Init(batchSize), acts[..|acts| - 1]), acts[|acts| - 1]);
      hide Inv;
    }
  }

  // ------------------------------------------------------------------ theorems

  /** Only loops waiting in their select remain: no call is in progress. */
  ghost predicate Quiescent(s: State) { forall t :: t in s.threads ==> s.threads[t].LoopSelect? }

  /** No lost wake-up, on every schedule: a full buffer always has a token, a signaller or a
      flusher to rescue it; so when nothing is in progress and there is no token, the buffer
      holds fewer than batchSize messages. */
  lemma NoLostWakeUp(batchSize: nat, acts: seq<Action>)
    requires batchSize >= 1
    ensures var s := Exec(Init(batchSize), acts);
            && (|s.sh.buffer| >= s.sh.batchSize ==>
                  s.sh.token || exists t :: t in s.threads && (s.threads[t].AddSignal? || s.threads[t].FlushEnter?))
            && (Quiescent(s) && !s.sh.token ==> |s.sh.buffer| < s.sh.batchSize)
  {
    Invariant(batchSize, acts);
    var s := Exec(Init(batchSize), acts);
    if IsFull(s.sh) && !s.sh.token {
      var t :| t in s.threads && Rescues(s.threads[t]);
    }
  }

  /** A wake-up is on its way or has arrived. */
  ghost predicate Signalled(s: State) {
    s.sh.token || exists t :: t in s.threads && s.threads[t].AddSignal?
  }

  /** The other direction: nobody signals below the batch size. Whenever there is a token, or a goroutine
      about to leave one, the buffer had batchSize messages at some moment of the run. */
  lemma {:induction false} SignalMeansWasFull(batchSize: nat, acts: seq<Action>)
    requires Signalled(Exec(Init(batchSize), acts))
    ensures exists n :: 0 <= n <= |acts| && |Exec(Init(batchSize), acts[..n]).sh.buffer| >= batchSize
  {
    if acts != [] {
      var init, a := acts[..|acts| - 1], acts[|acts| - 1];
      var s := Exec(Init(batchSize), init);
      SizeNeverChanges(batchSize, init);
      if Signalled(s) {
        SignalMeansWasFull(batchSize, init);
        var n :| 0 <= n <= |init| && |Exec(Init(batchSize), init[..n]).sh.buffer| >= batchSize;
        assert init[..n] == acts[..n];
      } else {
        SignalAppears(s, a);
        assert acts[..|acts|] == acts;
      }
    }
  }

  lemma TokenNeedsSignaller(s: State, a: Action)
    requires !s.sh.token && (a.Run? && a.t in s.threads ==> !s.threads[a.t].AddSignal?)
    ensures !Step(s, a).sh.token
  {
  }

  lemma MoverSignals(s: State, a: Action)
    requires Enabled(s, a) && !a.Cancel? && a.t in Apply(s, a).threads && Apply(s, a).threads[a.t].AddSignal?
    ensures IsFull(Apply(s, a).sh) && Apply(s, a).sh.batchSize == s.sh.batchSize
  {
  }

  lemma NewSignaller(s: State, a: Action, t: nat)
    requires t in Step(s, a).threads && Step(s, a).threads[t].AddSignal?
    requires t in s.threads ==> !s.threads[t].AddSignal?
    ensures |Step(s, a).sh.buffer| >= s.sh.batchSize
  {
    hide Apply, Enabled;
    if ByOther(a, t) {
      OtherKeepsThread(s, a, t);
    } else if Enabled(s, a) {
      MoverSignals(s, a);
    }
  }

  lemma SignalAppears(s: State, a: Action)
    requires !Signalled(s) && Signalled(Step(s, a))
    ensures |Step(s, a).sh.buffer| >= s.sh.batchSize
  {
    hide Step;
    TokenNeedsSignaller(s, a);
    var t :| t in Step(s, a).threads && Step(s, a).threads[t].AddSignal?;
    NewSignaller(s, a, t);
  }

  lemma {:induction false} SizeNeverChanges(batchSize: nat, acts: seq<Action>)
    ensures Exec(Init(batchSize), acts).sh.batchSize == batchSize
  {
    if acts != [] {
      SizeNeverChanges(batchSize, acts[..|acts| - 1]);
      var s, a := Exec(Init(batchSize), acts[..|acts| - 1]), acts[|acts| - 1];
      if Enabled(s, a) {
        BatchSizeStep(s, a);
      }
      hide Apply;
    }
  }

  /** What one wake-up of the loop does when nobody else moves: whichever branch is ready, the buffer is
      taken and handed over if there is anything; a received token is gone; the loop is back at its select
      after a tick or a token, and has left after the stop or the context branch. */
  lemma OneWakeUp(s: State, t: nat, branch: Branch)
    requires !s.panicked && t in s.threads && s.threads[t].LoopSelect?
    requires (branch.Token? ==> s.sh.token) && (branch.Stopped? ==> s.sh.stopClosed)
    requires branch.ContextDone? ==> s.cancelled
    ensures var flush := if s.sh.buffer == [] then [Run(t)] else [Run(t), Run(t), Run(t)];
            var s' := Exec(s, [Select(t, branch)] + flush);
            && s'.sh == s.sh.(buffer := [], token := s.sh.token && !branch.Token?)
            && s'.hist.taken == s.hist.taken + (if s.sh.buffer == [] then [] else [s.sh.buffer])
            && s'.hist.handed == s.hist.handed + (if s.sh.buffer == [] then [] else [|s.hist.taken|])
            && (t in s'.threads <==> branch.Tick? || branch.Token?)
            && (t in s'.threads ==> s'.threads[t].LoopSelect?)
  {
    var after := if branch.Tick? || branch.Token? then LoopAgain else LoopExit;
    var flush := if s.sh.buffer == [] then [Run(t)] else [Run(t), Run(t), Run(t)];
    Selected(s, t, branch, after);
    FlushRuns(Step(s, Select(t, branch)), t, after);
    ExecOne(s, [], Select(t, branch));
    assert [] + [Select(t, branch)] == [Select(t, branch)];
    ExecMore(s, [Select(t, branch)], flush);
    hide Exec, Step;
  }

  lemma Selected(s: State, t: nat, branch: Branch, after: After)
    requires Enabled(s, Select(t, branch))
    requires after == if branch.Tick? || branch.Token? then LoopAgain else LoopExit
    ensures Step(s, Select(t, branch))
            == s.(sh := s.sh.(token := s.sh.token && !branch.Token?), threads := s.threads[t := FlushEnter(after)])
  {
  }

  /** An undisturbed Flush of the loop. */
  lemma FlushRuns(s: State, t: nat, after: After)
    requires !s.panicked && t in s.threads && s.threads[t] == FlushEnter(after)
    requires after.LoopAgain? || after.LoopExit?
    ensures var s' := Exec(s, if s.sh.buffer == [] then [Run(t)] else [Run(t), Run(t), Run(t)]);
            && s'.sh == s.sh.(buffer := [])
            && s'.hist.taken == s.hist.taken + (if s.sh.buffer == [] then [] else [s.sh.buffer])
            && s'.hist.handed == s.hist.handed + (if s.sh.buffer == [] then [] else [|s.hist.taken|])
            && (t in s'.threads <==> after.LoopAgain?)
            && (t in s'.threads ==> s'.threads[t].LoopSelect?)
  {
    var s1 := Step(s, Run(t));
    ExecOne(s, [], Run(t));
    assert [] + [Run(t)] == [Run(t)];
    if s.sh.buffer != [] {
      TwoSteps(s, Run(t), Run(t));
      ExecOne(s, [Run(t), Run(t)], Run(t));
      assert [Run(t), Run(t)] + [Run(t)] == [Run(t), Run(t), Run(t)];
      hide Exec;
      assert s1.threads[t] == HandOver(|s.hist.taken|, after);
      assert Step(s1, Run(t)).threads[t] == InHandler(after);
    }
  }

  /** And the wake-up is acted on: in a quiescent state with a loop and a full buffer, the loop's
      token branch is ready, and its next two steps take exactly the buffer. */
  lemma FullBufferIsTaken(batchSize: nat, acts: seq<Action>, t: nat)
    requires batchSize >= 1
    requires var s := Exec(Init(batchSize), acts);
             !s.panicked && Quiescent(s) && t in s.threads && |s.sh.buffer| >= s.sh.batchSize
    ensures var s := Exec(Init(batchSize), acts);
            var s' := Step(Step(s, Select(t, Token)), Run(t));
            && Enabled(s, Select(t, Token))
            && s'.sh.buffer == [] && s'.hist.taken == s.hist.taken + [s.sh.buffer]
            && Holds(s'.threads, t, |s.hist.taken|)
  {
    NoLostWakeUp(batchSize, acts);
    Invariant(batchSize, acts);
  }

  /** Every message is handed over exactly once and in order: the batches in the order they were
      taken, then the buffer, are the Adds in lock order; no batch is empty; no batch is handed
      twice; and a batch not handed yet is held by exactly one goroutine. */
  lemma ExactlyOnceInOrder(batchSize: nat, acts: seq<Action>)
    requires batchSize >= 1
    ensures var s := Exec(Init(batchSize), acts); var h := s.hist;
            && h.added == Flatten(h.taken) + s.sh.buffer
            && (forall k :: 0 <= k < |h.taken| ==> h.taken[k] != [])
            && (forall i, j :: 0 <= i < j < |h.handed| ==> h.handed[i] != h.handed[j])
            && (forall i :: 0 <= i < |h.handed| ==> h.handed[i] < |h.taken|)
            && (forall k :: 0 <= k < |h.taken| ==> (k in h.handed <==> !exists t :: Holds(s.threads, t, k)))
            && (Quiescent(s) ==> forall k :: 0 <= k < |h.taken| ==> k in h.handed)
  {
    Invariant(batchSize, acts);
    var s := Exec(Init(batchSize), acts);
    assert Quiescent(s) ==> forall t: nat, k: nat :: !Holds(s.threads, t, k);
  }

  /** When a Stop on a started consumer has returned, every message added before it closed the stop
      channel has been taken; with no Add since, the buffer is empty. */
  lemma StopFlushesEarlierAdds(batchSize: nat, acts: seq<Action>, i: nat)
    requires batchSize >= 1 && i < |Exec(Init(batchSize), acts).hist.stopped|
    ensures var s := Exec(Init(batchSize), acts); var mark := s.hist.stopped[i];
            && mark <= |Flatten(s.hist.taken)| <= |s.hist.added|
            && s.hist.added[..mark] == Flatten(s.hist.taken)[..mark]
            && (|s.hist.added| == mark ==> s.sh.buffer == [])
  {
    Invariant(batchSize, acts);
  }

  /** Batch k holds a message added before the mark. */
  predicate Before(h: History, k: nat, mark: nat) { k < |h.taken| && |Flatten(h.taken[..k])| < mark }

  /** Exactly when a returned Stop has kept its promise: every message added before it closed the stop
      channel has reached the handler if and only if no goroutine still holds a batch with one. */
  lemma StopDeliversIffNoBatchHeld(batchSize: nat, acts: seq<Action>, i: nat)
    requires batchSize >= 1 && i < |Exec(Init(batchSize), acts).hist.stopped|
    ensures var s := Exec(Init(batchSize), acts); var h := s.hist; var mark := h.stopped[i];
            && mark <= |Flatten(h.taken)| <= |h.added| && h.added[..mark] == Flatten(h.taken)[..mark]
            && ((forall k: nat :: Before(h, k, mark) ==> k in h.handed)
                <==> !exists t: nat, k: nat :: Holds(s.threads, t, k) && Before(h, k, mark))
  {
    StopFlushesEarlierAdds(batchSize, acts, i);
    ExactlyOnceInOrder(batchSize, acts);
    var s := Exec(Init(batchSize), acts);
    var h, mark := s.hist, s.hist.stopped[i];
    hide Exec, Holds, Before, Flatten;
    if exists t: nat, k: nat :: Holds(s.threads, t, k) && Before(h, k, mark) {
      var t: nat, k: nat :| Holds(s.threads, t, k) && Before(h, k, mark);
      BeforeTaken(h, k, mark);
      assert k !in h.handed;
    } else {
      forall k: nat | Before(h, k, mark) ensures k in h.handed {
        BeforeTaken(h, k, mark);
      }
    }
  }

  lemma BeforeTaken(h: History, k: nat, mark: nat)
    requires Before(h, k, mark)
    ensures k < |h.taken|
  {
  }

  // ------------------------------------------------ when Stop keeps its promise

  /** Every batch with a message added before the mark has been handed over. */
  ghost predicate Delivered(h: History, mark: nat) {
    forall k: nat :: Before(h, k, mark) ==> k in h.handed
  }

  /** On every continuation, once the Stop with this mark has returned, everything before it has been
      handed over. */
  ghost predicate DeliversAlways(s: State, mark: nat) {
    forall more :: mark in Exec(s, more).hist.stopped ==> Delivered(Exec(s, more).hist, mark)
  }

  /** Goroutine t is about to flush on behalf of a Stop with this mark. */
  ghost predicate Flushing(s: State, t: nat, mark: nat) {
    !s.panicked && t in s.threads && s.threads[t] == FlushEnter(StopCall(mark)) && mark == |s.hist.added|
  }

  /** Exactly when the caller of Stop can rely on it, read off at the moment it closes the stop channel:
      nothing is buffered and nobody holds a batch - else somebody else may still hold one when it
      returns. */
  lemma StopDeliversAlwaysIff(batchSize: nat, acts: seq<Action>, t: nat)
    requires batchSize >= 1
    requires var s := Exec(Init(batchSize), acts);
             !s.panicked && !s.sh.stopClosed && t in s.threads && s.threads[t].StopClose?
    ensures var s := Exec(Init(batchSize), acts);
            DeliversAlways(Step(s, Run(t)), |s.hist.added|)
            <==> s.sh.buffer == [] && !exists u: nat, k: nat :: Holds(s.threads, u, k)
  {
    Invariant(batchSize, acts);
    var s := Exec(Init(batchSize), acts);
    var s1, mark := Step(s, Run(t)), |s.hist.added|;
    hide Exec, Inv, Init, DeliversAlways, Delivered;
    ClosedNow(s, t);
    InvStep(s, Run(t));
    hide Step;
    if s.sh.buffer == [] && !exists u: nat, k: nat :: Holds(s.threads, u, k) {
      NothingToLose(s1, mark);
    } else {
      var u, more := SomebodyHolds(s1, t, mark);
      var rest := StopPassesBy(Exec(s1, more), t, u, mark);
      ExecMore(s1, more, rest);
      MayFail(s1, more + rest, mark);
    }
  }

  lemma ClosedNow(s: State, t: nat)
    requires !s.panicked && !s.sh.stopClosed && t in s.threads && s.threads[t].StopClose?
    ensures var s1 := Step(s, Run(t));
            && Flushing(s1, t, |s.hist.added|) && s1.sh.buffer == s.sh.buffer
            && forall u: nat, k: nat :: Holds(s1.threads, u, k) <==> Holds(s.threads, u, k)
  {
  }

  lemma MayFail(s: State, more: seq<Action>, mark: nat)
    requires mark in Exec(s, more).hist.stopped && !Delivered(Exec(s, more).hist, mark)
    ensures !DeliversAlways(s, mark)
  {
  }

  lemma {:induction false} ExecMore(s: State, acts: seq<Action>, more: seq<Action>)
    ensures Exec(s, acts + more) == Exec(Exec(s, acts), more)
  {
    if more == [] {
      assert acts + more == acts;
    } else {
      var init := more[..|more| - 1];
      ExecMore(s, acts, init);
      assert (acts + more)[..|acts + more| - 1] == acts + init;
    }
  }

  lemma {:induction false} ExecInv(s: State, more: seq<Action>)
    requires Inv(s)
    ensures Inv(Exec(s, more))
  {
    if more != [] {
      ExecInv(s, more[..|more| - 1]);
      InvStep(Exec(s, more[..|more| - 1]), more[|more| - 1]);
      hide Inv;
    }
  }

  lemma HistoryStep(s: State, a: Action)
    ensures s.hist.taken <= Step(s, a).hist.taken && s.hist.handed <= Step(s, a).hist.handed
  {
  }

  lemma {:induction false} HistoryGrows(s: State, more: seq<Action>)
    ensures s.hist.taken <= Exec(s, more).hist.taken && s.hist.handed <= Exec(s, more).hist.handed
  {
    hide Step;
    if more != [] {
      HistoryGrows(s, more[..|more| - 1]);
      HistoryStep(Exec(s, more[..|more| - 1]), more[|more| - 1]);
    }
  }

  lemma {:induction false} FlattenGrows(a: seq<seq<Msg>>, b: seq<seq<Msg>>)
    requires a <= b
    ensures |Flatten(a)| <= |Flatten(b)|
  {
    if |a| < |b| {
      FlattenGrows(a, b[..|b| - 1]);
    } else {
      assert a == b;
    }
  }

  lemma NothingToLose(s: State, mark: nat)
    requires Inv(s) && s.sh.buffer == [] && mark == |s.hist.added|
    requires !exists u: nat, k: nat :: Holds(s.threads, u, k)
    ensures DeliversAlways(s, mark)
  {
    assert forall k: nat :: k < |s.hist.taken| ==> k in s.hist.handed;
    assert mark == |Flatten(s.hist.taken)|;
    forall more ensures Delivered(Exec(s, more).hist, mark) {
      HistoryGrows(s, more);
      var h := Exec(s, more).hist;
      hide Inv, Exec, Holds;
      forall k: nat | Before(h, k, mark) ensures k in h.handed {
        if k < |s.hist.taken| {
          assert k in s.hist.handed;
          var j :| 0 <= j < |s.hist.handed| && s.hist.handed[j] == k;
          assert h.handed[j] == k;
        } else {
          FlattenGrows(s.hist.taken, h.taken[..k]);
        }
      }
    }
  }

  lemma FreshThread(threads: map<nat, Pc>) returns (u: nat)
    ensures u !in threads
  {
    u := LargerThanAll(threads.Keys);
  }

  lemma {:induction false} LargerThanAll(ids: set<nat>) returns (u: nat)
    ensures forall t :: t in ids ==> t < u
  {
    if ids == {} {
      u := 0;
    } else {
      var t :| t in ids;
      var v := LargerThanAll(ids - {t});
      u := if t < v then v else t + 1;
      forall x | x in ids ensures x < u {
        assert x == t || x in ids - {t};
      }
    }
  }

  /** If anything is buffered, somebody else may come to hold it before Stop flushes. */
  lemma SomebodyHolds(s: State, t: nat, mark: nat) returns (u: nat, more: seq<Action>)
    requires Inv(s) && Flushing(s, t, mark)
    requires s.sh.buffer != [] || exists u: nat, k: nat :: Holds(s.threads, u, k)
    ensures Inv(Exec(s, more)) && Flushing(Exec(s, more), t, mark)
    ensures u != t && exists k: nat :: Holds(Exec(s, more).threads, u, k)
  {
    if k: nat, v: nat :| Holds(s.threads, v, k) {
      u, more := v, [];
    } else {
      u := FreshThread(s.threads);
      var call, run := Call(u, FlushEnter(Return)), Run(u);
      more := [call, run];
      ExecInv(s, more);
      TwoSteps(s, call, run);
      hide Inv, Exec;
      TakesBuffer(s, t, u, mark);
    }
  }

  lemma TwoSteps(s: State, a: Action, b: Action)
    ensures Exec(s, [a, b]) == Step(Step(s, a), b)
  {
    ExecOne(s, [], a);
    ExecOne(s, [a], b);
    assert [] + [a] == [a] && [a] + [b] == [a, b];
  }

  lemma TakesBuffer(s: State, t: nat, u: nat, mark: nat)
    requires Flushing(s, t, mark) && u !in s.threads && s.sh.buffer != []
    ensures var s' := Step(Step(s, Call(u, FlushEnter(Return))), Run(u));
            Flushing(s', t, mark) && u != t && Holds(s'.threads, u, |s.hist.taken|)
  {
  }

  /** Stop runs to its end while u does not move. */
  lemma StopPassesBy(s: State, t: nat, u: nat, mark: nat) returns (rest: seq<Action>)
    requires Inv(s) && Flushing(s, t, mark) && u != t && exists k: nat :: Holds(s.threads, u, k)
    ensures mark in Exec(s, rest).hist.stopped && !Delivered(Exec(s, rest).hist, mark)
  {
    var k: nat :| Holds(s.threads, u, k);
    rest := if s.sh.buffer == [] then [Run(t)] else [Run(t), Run(t), Run(t)];
    ExecInv(s, rest);
    StopRuns(s, t, u, mark, k);
    HeldIsLost(Exec(s, rest), u, k, mark);
  }

  lemma StopRuns(s: State, t: nat, u: nat, mark: nat, k: nat)
    requires Flushing(s, t, mark) && u != t && Holds(s.threads, u, k)
    ensures var s' := Exec(s, if s.sh.buffer == [] then [Run(t)] else [Run(t), Run(t), Run(t)]);
            mark in s'.hist.stopped && Holds(s'.threads, u, k) && |s'.hist.added| == mark
  {
    var s1 := Step(s, Run(t));
    ExecOne(s, [], Run(t));
    assert [] + [Run(t)] == [Run(t)];
    if s.sh.buffer == [] {
      assert s1.hist.stopped == s.hist.stopped + [mark];
    } else {
      var s2 := Step(s1, Run(t));
      var s3 := Step(s2, Run(t));
      TwoSteps(s, Run(t), Run(t));
      ExecOne(s, [Run(t), Run(t)], Run(t));
      assert [Run(t), Run(t)] + [Run(t)] == [Run(t), Run(t), Run(t)];
      hide Exec;
      assert s1.threads[t] == HandOver(|s.hist.taken|, StopCall(mark));
      assert s2.threads[t] == InHandler(StopCall(mark));
      assert s3.hist.stopped == s.hist.stopped + [mark];
    }
  }

  lemma HeldIsLost(s: State, u: nat, k: nat, mark: nat)
    requires Inv(s) && Holds(s.threads, u, k) && mark == |s.hist.added|
    ensures !Delivered(s.hist, mark)
  {
    var taken := s.hist.taken;
    assert k < |taken| && k !in s.hist.handed;
    assert taken[..k + 1][..k] == taken[..k];
    FlattenGrows(taken[..k + 1], taken);
    assert taken[k] != [];
    assert Before(s.hist, k, mark);
  }

  lemma Extend(batchSize: nat, acts: seq<Action>, s: State, a: Action) returns (acts': seq<Action>, s': State)
    requires Exec(Init(batchSize), acts) == s
    ensures s' == Step(s, a) && Exec(Init(batchSize), acts') == s'
  {
    ExecOne(Init(batchSize), acts, a);
    acts', s' := acts + [a], Step(s, a);
  }

  /** Stop does not wait for the loop: it can return while the loop holds a batch the handler has
      not seen. */
  lemma StopCanReturnBeforeHandover(m: Msg) returns (acts: seq<Action>)
    ensures var s := Exec(Init(2), acts);
            && s.hist.stopped == [1] && s.hist.added == [m] && s.sh.buffer == []
            && s.hist.handed == [] && s.hist.taken == [[m]] && Holds(s.threads, 0, 0) && Before(s.hist, 0, 1)
  {
    var s;
    acts := LoopHoldsBatch(m);
    s := Exec(Init(2), acts);
    acts, s := Extend(2, acts, s, Call(2, StopEnter));
    acts, s := Extend(2, acts, s, Run(2));
    acts, s := Extend(2, acts, s, Run(2));
    acts, s := Extend(2, acts, s, Run(2));
    assert s.hist.taken[..0] == [];
  }

  lemma LoopHoldsBatch(m: Msg) returns (acts: seq<Action>)
    ensures Exec(Init(2), acts)
            == State(Shared(2, [], false, false, true), map[0 := HandOver(0, LoopAgain)],
                     History([m], [[m]], [], []), false, false)
  {
    acts := OneBuffered(m);
    var s := Exec(Init(2), acts);
    acts, s := Extend(2, acts, s, Select(0, Tick));
    assert s.threads == map[0 := FlushEnter(LoopAgain)];
    acts, s := Extend(2, acts, s, Run(0));
    assert s.threads == map[0 := HandOver(0, LoopAgain)];
    assert s.hist.taken == [[m]];
  }

  lemma OneBuffered(m: Msg) returns (acts: seq<Action>)
    ensures Exec(Init(2), acts)
            == State(Shared(2, [m], false, false, true), map[0 := LoopSelect], History([m], [], [], []), false, false)
  {
    acts := [];
    var s := Init(2);
    acts, s := Extend(2, acts, s, Call(0, StartEnter));
    acts, s := Extend(2, acts, s, Run(0));
    assert s.threads == map[0 := LoopSelect];
    acts, s := Extend(2, acts, s, Call(1, AddEnter(m)));
    acts, s := Extend(2, acts, s, Run(1));
    assert s.sh.buffer == [m] && s.hist.added == [m];
    assert s.threads == map[0 := LoopSelect];
  }

  // ---------------------------------------------- one goroutine among the others

  /** What happens around goroutine t's k-th turn: the actions of others before it, and the branch its
      select takes. */
  datatype Surroundings = Surroundings(others: nat -> seq<Action>, pick: nat -> Branch)

  predicate ByOther(a: Action, t: nat) { a.Cancel? || a.t != t }

  ghost predicate OthersOnly(env: Surroundings, t: nat) {
    forall k: nat, i :: 0 <= i < |env.others(k)| ==> ByOther(env.others(k)[i], t)
  }

  /** The next step of goroutine t by where it is; none when it has left, its select waits, or the
      program has crashed. */
  function OwnStep(s: State, t: nat, pick: Branch): seq<Action> {
    if s.panicked || t !in s.threads then []
    else if !s.threads[t].LoopSelect? then [Run(t)]
    else if Ready(s, pick) then [Select(t, pick)]
    else []
  }

  function BeforeTurn(batchSize: nat, start: seq<Action>, env: Surroundings, t: nat, n: nat): seq<Action>
    decreases n, 1
  {
    Turns(batchSize, start, env, t, n) + env.others(n)
  }

  /** The schedule `start` extended by n turns of goroutine t. */
  function Turns(batchSize: nat, start: seq<Action>, env: Surroundings, t: nat, n: nat): seq<Action>
    decreases n, 0
  {
    if n == 0 then start
    else
      var before := BeforeTurn(batchSize, start, env, t, n - 1);
      before + OwnStep(Exec(Init(batchSize), before), t, env.pick(n - 1))
  }

  lemma NoTurns(batchSize: nat, start: seq<Action>, env: Surroundings, t: nat)
    ensures Turns(batchSize, start, env, t, 0) == start
  {
  }

  lemma TurnTaken(batchSize: nat, start: seq<Action>, env: Surroundings, t: nat, n: nat, own: seq<Action>)
    requires own == OwnStep(Exec(Init(batchSize), BeforeTurn(batchSize, start, env, t, n)), t, env.pick(n))
    ensures Turns(batchSize, start, env, t, n + 1) == BeforeTurn(batchSize, start, env, t, n) + own
    ensures own == [] ==> Turns(batchSize, start, env, t, n + 1) == BeforeTurn(batchSize, start, env, t, n)
  {
    var before := BeforeTurn(batchSize, start, env, t, n);
    assert before + [] == before;
  }

  /** Nobody else moves goroutine t. */
  lemma OtherKeepsThread(s: State, a: Action, t: nat)
    requires ByOther(a, t)
    ensures t in Step(s, a).threads <==> t in s.threads
    ensures t in s.threads ==> Step(s, a).threads[t] == s.threads[t]
  {
  }
}
