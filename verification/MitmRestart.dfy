/** The restart protocol of the transparent mitmdump proxy: every process carries a
    generation, its death travels as an exit event over a bounded channel, and one
    watcher goroutine restarts the current generation when its event arrives. */
module MitmRestart {

  const CAPACITY := 64
  const INITIAL_BACKOFF := 1
  const MAX_BACKOFF := 30

  /** A launched process and its exit event. */
  datatype Process =
    | Alive
    | Sending    // dead; its OnExit closure has not got the event into the channel yet
    | Queued     // dead; the event is in the channel
    | Received   // dead; the watcher has taken the event

  datatype Watcher =
    | Waiting                // in the select of watchMitmproxy
    | Launching(backoff: nat)             // top of restartWithBackoff's loop
    | Listening(gen: nat, backoff: nat)   // launched gen, waiting for its port
    | Stopping(gen: nat, backoff: nat)    // gracefully shutting down a half-launched gen
    | Sleeping(backoff: nat)

  datatype State = State(
    procs: map<nat, Process>,
    channel: seq<nat>,
    watcher: Watcher,
    currentGen: nat,
    nextGen: nat,
    ready: bool,
    attempt: nat,         // of restartWithBackoff, counted from 1
    restarts: seq<nat>,   // history: the generations whose death started a restart
    killed: set<nat>)     // history: half-launched generations the watcher shut down

  datatype Step =
    | Die(gen: nat)
    | Send(gen: nat)
    | Receive
    | LaunchFails
    | LaunchSucceeds
    | PortOpens
    | PortTimesOut
    | StopDone
    | Wake

  ghost predicate Init(s: State) {
    && s.procs.Keys == {1} && s.procs[1] in {Alive, Sending, Queued}
    && s.channel == (if s.procs[1].Queued? then [1] else [])
    && s.watcher == Waiting && s.currentGen == 1 && s.nextGen == 1
    && s.ready && s.attempt == 0 && s.restarts == [] && s.killed == {}
  }

  /** exponential backoff, 1s to 30s */
  function NextBackoff(backoff: nat): nat {
    if backoff < MAX_BACKOFF then (if 2 * backoff > MAX_BACKOFF then MAX_BACKOFF else 2 * backoff) else backoff
  }

  ghost predicate Enabled(s: State, step: Step) {
    match step
    case Die(g) => g in s.procs && s.procs[g].Alive?
    case Send(g) => g in s.procs && s.procs[g].Sending? && |s.channel| < CAPACITY
    case Receive => s.watcher.Waiting? && s.channel != []
    case LaunchFails => s.watcher.Launching?
    case LaunchSucceeds => s.watcher.Launching?
    case PortOpens => s.watcher.Listening?
    case PortTimesOut => s.watcher.Listening?
    // GracefulShutdown returns once the process is reaped
    case StopDone => s.watcher.Stopping? && (s.watcher.gen in s.procs ==> !s.procs[s.watcher.gen].Alive?)
    case Wake => s.watcher.Sleeping?
  }

  ghost function Apply(s: State, step: Step): State
    requires Enabled(s, step)
  {
    match step
    case Die(g) => s.(procs := s.procs[g := Sending])
    case Send(g) => s.(procs := s.procs[g := Queued], channel := s.channel + [g])
    case Receive =>
      var g := s.channel[0];
      var t := s.(procs := s.procs[g := Received], channel := s.channel[1..]);
      if g != s.currentGen then t
      else t.(watcher := Launching(INITIAL_BACKOFF), ready := false, attempt := 1, restarts := s.restarts + [g])
    case LaunchFails => s.(nextGen := s.nextGen + 1, watcher := Sleeping(s.watcher.backoff))
    case LaunchSucceeds =>
      var g := s.nextGen + 1;
      s.(nextGen := g, procs := s.procs[g := Alive], watcher := Listening(g, s.watcher.backoff))
    case PortOpens => s.(currentGen := s.watcher.gen, watcher := Waiting, ready := true)
    case PortTimesOut => s.(killed := s.killed + {s.watcher.gen}, watcher := Stopping(s.watcher.gen, s.watcher.backoff))
    case StopDone => s.(watcher := Sleeping(s.watcher.backoff))
    case Wake => s.(watcher := Launching(NextBackoff(s.watcher.backoff)), attempt := s.attempt + 1)
  }

  // ---- The inductive invariant.

  /** The channel holds exactly the events sent and not yet received, each once. */
  ghost predicate ChannelInv(s: State) {
    && (forall g :: g in s.procs ==> 1 <= g <= s.nextGen)
    && (forall g :: g in s.channel <==> g in s.procs && s.procs[g].Queued?)
    && (forall i, j :: 0 <= i < j < |s.channel| ==> s.channel[i] != s.channel[j])
    && |s.channel| <= CAPACITY
  }

  /** The current generation's event is taken exactly while the watcher restarts, and a
      generation being brought up is the newest and has not lost its event. */
  ghost predicate WatcherInv(s: State) {
    && s.currentGen in s.procs
    && (s.watcher.Waiting? <==> !s.procs[s.currentGen].Received?)
    && (s.watcher.Listening? || s.watcher.Stopping? ==>
          && s.watcher.gen in s.procs && !s.procs[s.watcher.gen].Received?
          && s.watcher.gen == s.nextGen && s.watcher.gen > s.currentGen)
    && (s.ready <==> s.watcher.Waiting?)
    && (!s.watcher.Waiting? ==> s.attempt >= 1 && s.watcher.backoff == Capped(s.attempt - 1))
  }

  function Pow2(k: nat): nat { if k == 0 then 1 else 2 * Pow2(k - 1) }

  /** Seconds to wait after a failed attempt that k others came before. */
  function Capped(k: nat): nat { if Pow2(k) < MAX_BACKOFF then Pow2(k) else MAX_BACKOFF }

  ghost predicate HistoryInv(s: State) {
    && (forall g :: g in s.killed ==>
          g <= s.nextGen && g != s.currentGen && (s.watcher.Listening? ==> g != s.watcher.gen))
    && (forall g :: g in s.restarts ==>
          g <= s.currentGen && g !in s.killed && (s.watcher.Waiting? ==> g < s.currentGen))
    && (forall i, j :: 0 <= i < j < |s.restarts| ==> s.restarts[i] < s.restarts[j])
    && (!s.watcher.Waiting? ==> s.restarts != [] && s.restarts[|s.restarts| - 1] == s.currentGen)
    && (s.watcher.Stopping? ==> s.watcher.gen in s.killed)
  }

  /** The generation the watcher is bringing up or shutting down, if any. */
  ghost predicate AtHand(s: State, g: nat) { (s.watcher.Listening? || s.watcher.Stopping?) && s.watcher.gen == g }

  /** No process is left behind: what is alive is the current generation or the one at hand. */
  ghost predicate NoStrays(s: State) {
    forall g :: g in s.procs && s.procs[g].Alive? ==> g == s.currentGen || AtHand(s, g)
  }

  ghost predicate Inv(s: State) {
    ChannelInv(s) && WatcherInv(s) && HistoryInv(s) && NoStrays(s)
  }

  lemma {:induction false} DieOrSendPreserves(s: State, step: Step)
    requires Inv(s) && Enabled(s, step) && (step.Die? || step.Send?)
    ensures Inv(Apply(s, step))
  {
    var t := Apply(s, step);
    if step.Send? {
      assert forall h :: h in t.channel <==> h in s.channel || h == step.gen;
    }
  }

  lemma {:induction false} ReceivePreserves(s: State)
    requires Inv(s) && Enabled(s, Receive)
    ensures Inv(Apply(s, Receive))
  {
    var t := Apply(s, Receive);
    var g := s.channel[0];
    assert g in s.channel;
    assert forall h :: h in t.channel <==> h in s.channel && h != g;
    assert forall i :: 0 <= i < |s.restarts| ==> s.restarts[i] in s.restarts;
  }

  /** Doubling up to the limit is what the powers of two give. */
  lemma {:induction false} NextIsCapped(k: nat)
    ensures NextBackoff(Capped(k)) == Capped(k + 1)
  {
  }

  lemma {:induction false} RestartStepPreserves(s: State, step: Step)
    requires Inv(s) && Enabled(s, step) && !step.Die? && !step.Send? && !step.Receive?
    ensures Inv(Apply(s, step))
  {
    if step.Wake? {
      NextIsCapped(s.attempt - 1);
    }
  }

  lemma {:induction false} StepPreserves(s: State, step: Step)
    requires Inv(s) && Enabled(s, step)
    ensures Inv(Apply(s, step))
  {
    if step.Die? || step.Send? {
      DieOrSendPreserves(s, step);
    } else if step.Receive? {
      ReceivePreserves(s);
    } else {
      RestartStepPreserves(s, step);
    }
  }

  ghost predicate IsRun(states: seq<State>, steps: seq<Step>) {
    && |states| == |steps| + 1
    && Init(states[0])
    && forall i :: 0 <= i < |steps| ==> Enabled(states[i], steps[i]) && states[i + 1] == Apply(states[i], steps[i])
  }

  lemma {:induction false} InvHoldsAlongRun(states: seq<State>, steps: seq<Step>, k: nat)
    requires IsRun(states, steps) && k < |states|
    ensures Inv(states[k])
  {
    if k == 0 {
    } else {
      InvHoldsAlongRun(states, steps, k - 1);
      StepPreserves(states[k - 1], steps[k - 1]);
    }
  }

  /** Whenever the watcher waits, the current mitmdump is alive or its exit event is still
      on the way; a generation's death restarts at most once, a shut-down attempt's never; and
      the proxy counts as ready exactly while it waits. */
  lemma {:induction false} DeathIsNeverMissed(states: seq<State>, steps: seq<Step>, k: nat)
    requires IsRun(states, steps) && k < |states|
    ensures var s := states[k];
      && s.currentGen in s.procs
      && (s.watcher.Waiting? ==>
            || s.procs[s.currentGen].Alive?
            || s.procs[s.currentGen].Sending?
            || (s.procs[s.currentGen].Queued? && s.currentGen in s.channel))
      && (forall i, j :: 0 <= i < j < |s.restarts| ==> s.restarts[i] != s.restarts[j])
      && (forall g :: g in s.restarts ==> g !in s.killed)
      && (s.ready <==> s.watcher.Waiting?)
  {
    InvHoldsAlongRun(states, steps, k);
  }

  /** At most one mitmdump is alive while the watcher waits, the current one; while it
      restarts, at most the one being brought up or shut down, and the current one is dead. */
  lemma {:induction false} NoProcessIsLeftBehind(states: seq<State>, steps: seq<Step>, k: nat, g: nat)
    requires IsRun(states, steps) && k < |states| && g in states[k].procs && states[k].procs[g].Alive?
    ensures var s := states[k]; if s.watcher.Waiting? then g == s.currentGen else AtHand(s, g) && g == s.nextGen
  {
    InvHoldsAlongRun(states, steps, k);
  }

  /** The n-th failed attempt of a restart is followed by 2^(n-1) seconds of sleep, 30 at most. */
  lemma {:induction false} RetriesBackOff(states: seq<State>, steps: seq<Step>, k: nat)
    requires IsRun(states, steps) && k < |states| && states[k].watcher.Sleeping?
    ensures states[k].attempt >= 1 && states[k].watcher.backoff == Capped(states[k].attempt - 1)
  {
    InvHoldsAlongRun(states, steps, k);
  }

  // ---- A restart from end to end.

  /** A current mitmdump that dies with no older event outstanding is gone from readiness
      once its event is received, and the restart begins with attempt one. */
  lemma {:induction false} DeathStartsRestart(s: State)
    requires Inv(s) && s.watcher.Waiting? && s.procs[s.currentGen].Alive? && s.channel == []
    ensures var g := s.currentGen;
      && Enabled(s, Die(g))
      && var a := Apply(s, Die(g));
         && Enabled(a, Send(g))
         && var b := Apply(a, Send(g));
            && Enabled(b, Receive)
            && Apply(b, Receive) ==
                 s.(procs := s.procs[g := Received], watcher := Launching(INITIAL_BACKOFF), ready := false,
                    attempt := 1, restarts := s.restarts + [g])
  {
    var g := s.currentGen;
    var b := Apply(Apply(s, Die(g)), Send(g));
    assert b.channel == [g];
    assert Apply(b, Receive).procs == s.procs[g := Received];
  }

  /** An attempt whose port opens puts a new generation in charge: alive, ready, watched. */
  lemma {:induction false} OpenPortEndsRestart(s: State)
    requires Inv(s) && s.watcher.Launching?
    ensures var a, g := Apply(s, LaunchSucceeds), s.nextGen + 1;
      && Enabled(a, PortOpens)
      && Apply(a, PortOpens) ==
           s.(procs := s.procs[g := Alive], watcher := Waiting, currentGen := g, nextGen := g, ready := true)
  {
  }

  /** A launch that fails is tried again after the sleep, under a new generation. */
  lemma {:induction false} FailedLaunchIsRetried(s: State)
    requires Inv(s) && s.watcher.Launching?
    ensures var a := Apply(s, LaunchFails);
      && Enabled(a, Wake)
      && Apply(a, Wake) ==
           s.(watcher := Launching(NextBackoff(s.watcher.backoff)), attempt := s.attempt + 1, nextGen := s.nextGen + 1)
  {
  }

  /** So is one whose port stays closed, but only once its process is gone. */
  lemma {:induction false} ClosedPortIsRetried(s: State)
    requires Inv(s) && s.watcher.Launching?
    ensures var a, g := Apply(s, LaunchSucceeds), s.nextGen + 1;
      && Enabled(a, PortTimesOut)
      && var b := Apply(a, PortTimesOut);
         && !Enabled(b, StopDone) && Enabled(b, Die(g))
         && var c := Apply(b, Die(g));
            && Enabled(c, StopDone)
            && var d := Apply(c, StopDone);
               && Enabled(d, Wake)
               && Apply(d, Wake) ==
                    s.(procs := s.procs[g := Sending], watcher := Launching(NextBackoff(s.watcher.backoff)),
                       attempt := s.attempt + 1, nextGen := g, killed := s.killed + {g})
  {
    var g := s.nextGen + 1;
    assert s.procs[g := Alive][g := Sending] == s.procs[g := Sending];
  }

  // ---- A death is noticed after finitely many events.

  function Unreceived(s: State): set<nat> {
    set g | g in s.procs && !s.procs[g].Received?
  }

  function Receives(steps: seq<Step>): nat {
    if steps == [] then 0 else Receives(steps[..|steps| - 1]) + (if steps[|steps| - 1].Receive? then 1 else 0)
  }

  /** While the watcher keeps waiting it has received fewer events than were outstanding,
      so a dead current generation is at the head of the channel before they run out. */
  lemma {:induction false} WaitingIsBounded(states: seq<State>, steps: seq<Step>)
    requires |states| == |steps| + 1 && Inv(states[0])
    requires forall i :: 0 <= i < |steps| ==>
      Enabled(states[i], steps[i]) && states[i + 1] == Apply(states[i], steps[i])
    requires forall i :: 0 <= i < |states| ==> states[i].watcher.Waiting?
    ensures Inv(states[|steps|])
    ensures Receives(steps) + |Unreceived(states[|steps|])| == |Unreceived(states[0])|
    ensures Receives(steps) < |Unreceived(states[0])|
  {
    var n := |steps|;
    if n == 0 {
    } else {
      WaitingIsBounded(states[..n], steps[..n - 1]);
      assert states[n] == Apply(states[n - 1], steps[n - 1]);
      StepPreserves(states[n - 1], steps[n - 1]);
      WaitingStepCounts(states[n - 1], steps[n - 1]);
    }
    assert states[n].currentGen in Unreceived(states[n]);
  }

  lemma {:induction false} WaitingStepCounts(s: State, step: Step)
    requires Inv(s) && Enabled(s, step) && s.watcher.Waiting? && Apply(s, step).watcher.Waiting?
    ensures |Unreceived(s)| == |Unreceived(Apply(s, step))| + if step.Receive? then 1 else 0
  {
    match step
    case Die(_) => DieOrSendCounts(s, step);
    case Send(_) => DieOrSendCounts(s, step);
    case Receive => ReceiveCounts(s);
    case _ =>
  }

  lemma {:induction false} DieOrSendCounts(s: State, step: Step)
    requires Enabled(s, step) && (step.Die? || step.Send?)
    ensures Unreceived(s) == Unreceived(Apply(s, step))
  {
  }

  lemma {:induction false} ReceiveCounts(s: State)
    requires ChannelInv(s) && Enabled(s, Receive)
    ensures |Unreceived(s)| == |Unreceived(Apply(s, Receive))| + 1
  {
    var t, g := Apply(s, Receive), s.channel[0];
    assert g in s.channel && g in Unreceived(s) && g !in Unreceived(t);
    assert Unreceived(s) == Unreceived(t) + {g};
  }

  /** A waiting watcher whose mitmdump died can always go on: an event can be received, or
      the dead process can send its own. */
  lemma {:induction false} WaitingNeverStuck(s: State)
    requires Inv(s) && s.watcher.Waiting? && !s.procs[s.currentGen].Alive?
    ensures Enabled(s, Receive) || Enabled(s, Send(s.currentGen))
  {
    if s.procs[s.currentGen].Queued? {
      assert s.currentGen in s.channel;
    }
  }
}
