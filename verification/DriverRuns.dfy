/** Driver runs told by their actions: what each run has taken in, reported and emitted, and the runs there can be. */
module DriverRuns {
  import opened Text
  import opened Driver

  lemma {:induction false} ExecSnoc(s: State, actions: seq<Action>, a: Action)
    ensures Exec(s, actions + [a])
         == match Exec(s, actions)
            case None => None
            case Some(t) => if Enabled(t, a) then Some(Apply(t, a)) else None
    decreases |actions|
  {
    hide Apply, Enabled;
    if actions == [] {
      assert [] + [a] == [a] && [a][1..] == [];
      assert Exec(s, []) == Some(s);
      if Enabled(s, a) { assert Exec(Apply(s, a), []) == Some(Apply(s, a)); }
    } else {
      assert (actions + [a])[1..] == actions[1..] + [a];
      if Enabled(s, actions[0]) { ExecSnoc(Apply(s, actions[0]), actions[1..], a); }
    }
  }

  lemma {:induction false} ExecConcat(s: State, a: seq<Action>, b: seq<Action>)
    ensures Exec(s, a + b)
         == match Exec(s, a)
            case None => None
            case Some(t) => Exec(t, b)
    decreases |a|
  {
    hide Apply, Enabled;
    if a == [] {
      assert a + b == b;
    } else {
      assert (a + b)[1..] == a[1..] + b;
      if Enabled(s, a[0]) { ExecConcat(Apply(s, a[0]), a[1..], b); }
    }
  }

  // ---------- What the actions say ----------

  /** The commands sent, in order. */
  function CommandsIn(actions: seq<Action>): seq<Command> {
    if actions == [] then []
    else
      var n := |actions| - 1;
      CommandsIn(actions[..n]) + (if actions[n].Enqueue? then [actions[n].command] else [])
  }

  /** The ends of prompts, as the events they call for. */
  function PromptEndsIn(actions: seq<Action>): seq<Event> {
    if actions == [] then []
    else
      var n := |actions| - 1;
      PromptEndsIn(actions[..n])
      + match actions[n]
        case PromptDone => [Done]
        case PromptFails(e) => [Error(e)]
        case _ => []
  }

  /** The updates notified, in order. */
  function UpdatesIn(actions: seq<Action>): seq<string> {
    if actions == [] then []
    else
      var n := |actions| - 1;
      UpdatesIn(actions[..n]) + (if actions[n].Notify? then [actions[n].update] else [])
  }

  function UpdatesOf(hs: seq<Handled>): (r: seq<string>)
    ensures |r| == |hs|
  {
    seq(|hs|, i requires 0 <= i < |hs| => hs[i].update)
  }

  /** The run failed with this error. */
  ghost predicate FailedWith(actions: seq<Action>, e: string) {
    SpawnFails(e) in actions || InitializeFails(e) in actions || NewFails(e) in actions || TransportFails(e) in actions
  }

  ghost predicate HandshakeFailedWith(actions: seq<Action>, e: string) {
    InitializeFails(e) in actions || NewFails(e) in actions
  }

  /** The loop ended by itself: the commands were closed, or a prompt failed. */
  ghost predicate LoopEnded(actions: seq<Action>) {
    ReceiveClosed in actions || exists e :: PromptFails(e) in actions
  }

  ghost predicate LoadTried(resume: bool, actions: seq<Action>) { resume && Initialized(true) in actions }

  ghost predicate LoadDone(actions: seq<Action>) { LoadResolved(true) in actions || LoadResolved(false) in actions }

  // ---------- The state told by the actions ----------

  ghost predicate Inputs(actions: seq<Action>, s: State) {
    && s.channel.enqueued == CommandsIn(actions)
    && s.talk.loopEvents == PromptEndsIn(actions)
    && multiset(UpdatesOf(s.gate.completed)) + multiset(UpdatesOf(s.gate.inFlight)) == multiset(UpdatesIn(actions))
    && (ReceiveClosed in actions ==> s.channel.queue == [] && !s.channel.senderOpen)
  }

  /** How the session is opened: by a load exactly if the agent can load and was asked to, by a new session if not or if that fails. */
  ghost predicate Opening(resume: bool, actions: seq<Action>, s: State) {
    && s.resume == resume
    && s.gate.stores == (if LoadTried(resume, actions) then 1 else 0) + (if LoadDone(actions) then 1 else 0)
    && (s.pc.Connecting? || s.pc.Initializing? ==>
          Initialized(true) !in actions && Initialized(false) !in actions && !LoadDone(actions) && Created !in actions)
    && (s.pc.Loading? ==> LoadTried(resume, actions) && !LoadDone(actions) && Created !in actions)
    && (s.pc.Creating? ==>
          LoadResolved(true) !in actions && Created !in actions && (LoadTried(resume, actions) ==> LoadDone(actions)))
    && (s.pc.Opened? || InLoop(s.pc) ==>
          && (Created in actions <==> LoadResolved(true) !in actions)
          && (LoadTried(resume, actions) ==> LoadDone(actions)))
    && (LoadDone(actions) ==> LoadTried(resume, actions))
    && (LoadResolved(true) in actions ==> Created !in actions && LoadResolved(false) !in actions)
  }

  /** How the run ends: whose error is reported and emitted. */
  ghost predicate Ending(actions: seq<Action>, s: State) {
    && (!s.pc.MainDone? && !s.pc.Finished? ==> !LoopEnded(actions) && forall e :: !FailedWith(actions, e))
    && (s.pc.MainDone? ==> match s.pc.error
                           case None => LoopEnded(actions)
                           case Some(e) => FailedWith(actions, e) && !LoopEnded(actions))
    && (forall e :: HandshakeFailedWith(actions, e) ==> s.slot.delivered == [Failed(e)])
    && (forall e :: Failed(e) in s.slot.delivered ==> FailedWith(actions, e))
    && (!s.pc.Finished? ==> s.talk.outerEvents == [])
    && (s.pc.Finished? ==> if LoopEnded(actions) then s.talk.outerEvents == []
                           else |s.talk.outerEvents| == 1 && s.talk.outerEvents[0].Error?
                                && FailedWith(actions, s.talk.outerEvents[0].message))
  }

  ghost predicate Before(pc: Pc) { pc.Connecting? || pc.Initializing? || pc.Loading? || pc.Creating? }

  lemma Appended(actions: seq<Action>, a: Action)
    ensures (actions + [a])[..|actions|] == actions && (actions + [a])[|actions|] == a
    ensures forall b :: b in actions + [a] <==> b in actions || b == a
  {
  }

  /** What one more action adds to each list. */
  lemma ListsAppended(actions: seq<Action>, a: Action)
    ensures CommandsIn(actions + [a]) == if a.Enqueue? then CommandsIn(actions) + [a.command] else CommandsIn(actions)
    ensures PromptEndsIn(actions + [a])
         == if a.PromptDone? then PromptEndsIn(actions) + [Done]
            else if a.PromptFails? then PromptEndsIn(actions) + [Error(a.error)]
            else PromptEndsIn(actions)
    ensures UpdatesIn(actions + [a]) == if a.Notify? then UpdatesIn(actions) + [a.update] else UpdatesIn(actions)
  {
    Appended(actions, a);
  }

  lemma {:induction false} StepUpdates(g: Gate, a: Action)
    requires a.Notify? || (a.Forward? && a.k < |g.inFlight|)
    ensures var h := if a.Notify? then PickUp(g, a.update) else Complete(g, a.k);
      multiset(UpdatesOf(h.completed)) + multiset(UpdatesOf(h.inFlight))
      == multiset(UpdatesOf(g.completed)) + multiset(UpdatesOf(g.inFlight)) + if a.Notify? then multiset{a.update} else multiset{}
  {
    hide UpdatesOf;
    if a.Notify? {
      HandledPush(g.inFlight, Handled(a.update, g.replaying, g.stores));
    } else {
      HandledMoves(g, a.k);
    }
  }

  lemma {:induction false} StepInputs(actions: seq<Action>, s: State, a: Action)
    requires Enabled(s, a) && Inputs(actions, s)
    ensures Inputs(actions + [a], Apply(s, a))
  {
    hide PromptBlocks, PickUp, Complete, SignalReady, UpdatesOf, CommandsIn, PromptEndsIn, UpdatesIn;
    Appended(actions, a);
    ListsAppended(actions, a);
    if a.Notify? || a.Forward? { StepUpdates(s.gate, a); }
  }

  lemma HandledPush(hs: seq<Handled>, h: Handled)
    ensures UpdatesOf(hs + [h]) == UpdatesOf(hs) + [h.update]
  {
  }

  lemma HandledOut(hs: seq<Handled>, k: nat)
    requires k < |hs|
    ensures multiset(UpdatesOf(hs[..k] + hs[k + 1..])) + multiset{hs[k].update} == multiset(UpdatesOf(hs))
  {
    var us := UpdatesOf(hs);
    assert us == us[..k] + ([us[k]] + us[k + 1..]);
    assert UpdatesOf(hs[..k] + hs[k + 1..]) == us[..k] + us[k + 1..];
  }

  lemma HandledMoves(g: Gate, k: nat)
    requires k < |g.inFlight|
    ensures var h := Complete(g, k);
      multiset(UpdatesOf(h.completed)) + multiset(UpdatesOf(h.inFlight))
      == multiset(UpdatesOf(g.completed)) + multiset(UpdatesOf(g.inFlight))
  {
    var h := g.inFlight[k];
    HandledPush(g.completed, h);
    HandledOut(g.inFlight, k);
    assert Complete(g, k).completed == g.completed + [h];
  }

  lemma {:induction false} StepOpening(resume: bool, actions: seq<Action>, s: State, a: Action)
    requires Enabled(s, a) && Opening(resume, actions, s)
    ensures Opening(resume, actions + [a], Apply(s, a))
  {
    hide Send, Emit, PickUp, Complete, SignalReady, Take;
    Appended(actions, a);
    if a.Forward? || a.Notify? { GateStores(s.gate, a); }
  }

  lemma GateStores(g: Gate, a: Action)
    ensures a.Notify? ==> PickUp(g, a.update).stores == g.stores
    ensures a.Forward? && a.k < |g.inFlight| ==> Complete(g, a.k).stores == g.stores
  {
  }

  /** How one more action adds to the failures and ends there have been. */
  lemma FailuresAppended(actions: seq<Action>, a: Action)
    ensures LoopEnded(actions + [a]) <==> LoopEnded(actions) || a.ReceiveClosed? || a.PromptFails?
    ensures forall e :: FailedWith(actions + [a], e) <==>
      FailedWith(actions, e) || a == SpawnFails(e) || a == InitializeFails(e) || a == NewFails(e) || a == TransportFails(e)
    ensures forall e :: HandshakeFailedWith(actions + [a], e) <==>
      HandshakeFailedWith(actions, e) || a == InitializeFails(e) || a == NewFails(e)
  {
    Appended(actions, a);
    if a.PromptFails? { assert PromptFails(a.error) in actions + [a]; }
    if LoopEnded(actions) && ReceiveClosed !in actions {
      var e :| PromptFails(e) in actions;
      assert PromptFails(e) in actions + [a];
    }
  }

  lemma {:induction false} StepEnding(actions: seq<Action>, s: State, a: Action)
    requires Enabled(s, a) && Ending(actions, s) && ReportedOnce(s.pc, s.slot, s.channel.taken)
    ensures Ending(actions + [a], Apply(s, a))
  {
    hide PromptBlocks, PickUp, Complete, StoreReplaying, Take, LoopEnded, FailedWith, HandshakeFailedWith;
    FailuresAppended(actions, a);
  }

  lemma {:induction false} RunTold(resume: bool, preamble: string, actions: seq<Action>)
    ensures var r := Exec(Start(resume, preamble), actions);
      r.Some? ==> Inputs(actions, r.value) && Opening(resume, actions, r.value) && Ending(actions, r.value)
    decreases |actions|
  {
    hide Apply, Enabled, Inputs, Opening, Ending;
    if actions == [] {
      StartTold(resume, preamble);
      assert Exec(Start(resume, preamble), []) == Some(Start(resume, preamble));
    } else {
      var n := |actions| - 1;
      var before, a := actions[..n], actions[n];
      assert actions == before + [a];
      RunTold(resume, preamble, before);
      ExecSnoc(Start(resume, preamble), before, a);
      StartInv(resume, preamble);
      RunKeepsInv(Start(resume, preamble), before, preamble);
      var r := Exec(Start(resume, preamble), before);
      if r.Some? && Enabled(r.value, a) {
        StepInputs(before, r.value, a);
        StepOpening(resume, before, r.value, a);
        StepEnding(before, r.value, a);
      }
    }
  }

  lemma StartTold(resume: bool, preamble: string)
    ensures Inputs([], Start(resume, preamble)) && Opening(resume, [], Start(resume, preamble)) && Ending([], Start(resume, preamble))
  {
  }

  /**
   Every run takes its commands, loop events and updates from its actions: nothing sent, ended or notified is
   lost, doubled or reordered, and the loop closes by itself only when no command is left.
   */
  lemma {:induction false} NothingLost(resume: bool, preamble: string, actions: seq<Action>, s: State)
    requires Exec(Start(resume, preamble), actions) == Some(s)
    ensures s.channel.enqueued == CommandsIn(actions)
    ensures s.talk.loopEvents == PromptEndsIn(actions)
    ensures multiset(UpdatesOf(s.gate.completed)) + multiset(UpdatesOf(s.gate.inFlight)) == multiset(UpdatesIn(actions))
    ensures ReceiveClosed in actions ==> s.channel.taken == s.channel.enqueued
  {
    hide Exec, Opening, Ending, PreambleOnce, OneEventEach, Gated, ReportedOnce;
    RunTold(resume, preamble, actions);
    StartInv(resume, preamble);
    RunKeepsInv(Start(resume, preamble), actions, preamble);
    assert s.channel.queue == [] ==> s.channel.taken + s.channel.queue == s.channel.taken;
  }

  /** A session in its loop was loaded, if that was asked for, offered and went well, and was created otherwise. */
  lemma {:induction false} SessionOpened(resume: bool, preamble: string, actions: seq<Action>, s: State)
    requires Exec(Start(resume, preamble), actions) == Some(s)
    ensures s.gate.stores > 0 <==> resume && Initialized(true) in actions
    ensures InLoop(s.pc) ==>
      && (LoadResolved(true) in actions <==> Created !in actions)
      && (LoadResolved(true) in actions ==> resume && Initialized(true) in actions)
      && (resume && Initialized(true) in actions ==> LoadResolved(true) in actions || LoadResolved(false) in actions)
  {
    hide Exec, Inputs, Ending;
    RunTold(resume, preamble, actions);
  }

  /** A failed handshake is reported with its own error; a run that fails ends with one error event, one that ends by itself with none. */
  lemma {:induction false} FailureReported(resume: bool, preamble: string, actions: seq<Action>, s: State, e: string)
    requires Exec(Start(resume, preamble), actions) == Some(s)
    ensures HandshakeFailedWith(actions, e) ==> s.slot.delivered == [Failed(e)]
    ensures Failed(e) in s.slot.delivered ==> FailedWith(actions, e)
    ensures s.pc.Finished? ==>
      if LoopEnded(actions) then s.talk.outerEvents == []
      else exists f :: FailedWith(actions, f) && s.talk.outerEvents == [Error(f)]
  {
    hide Exec, Inputs, Opening;
    RunTold(resume, preamble, actions);
    if s.pc.Finished? && !LoopEnded(actions) {
      assert s.talk.outerEvents == [Error(s.talk.outerEvents[0].message)];
    }
  }

  // ---------- The runs there can be ----------

  /** A command sent, taken and completed. */
  function Served(c: Command): seq<Action> {
    [Enqueue(c), Receive, if c.Prompt? then PromptDone else ModelSet]
  }

  function ServedAll(cs: seq<Command>): seq<Action> {
    if cs == [] then [] else Served(cs[0]) + ServedAll(cs[1..])
  }

  ghost predicate Idle(s: State) {
    s.pc == Looping && s.channel.queue == [] && s.channel.senderOpen
  }

  lemma {:induction false} ThreeSteps(s: State, a: Action, b: Action, c: Action)
    requires Enabled(s, a) && Enabled(Apply(s, a), b) && Enabled(Apply(Apply(s, a), b), c)
    ensures Exec(s, [a, b, c]) == Some(Apply(Apply(Apply(s, a), b), c))
  {
    hide Apply, Enabled;
    var t := Apply(s, a);
    var u := Apply(t, b);
    var v := Apply(u, c);
    assert [a, b, c][1..] == [b, c] && [b, c][1..] == [c] && [c][1..] == [];
    assert Exec(v, []) == Some(v);
    assert Exec(u, [c]) == Some(v);
    assert Exec(t, [b, c]) == Some(v);
  }

  lemma {:induction false} ServesOne(s: State, c: Command)
    requires Idle(s)
    ensures var r := Exec(s, Served(c)); r.Some? && Idle(r.value)
  {
    hide Send, Emit;
    var a, b, d := Enqueue(c), Receive, if c.Prompt? then PromptDone else ModelSet;
    assert Apply(s, a).channel.queue == [c];
    ThreeSteps(s, a, b, d);
  }

  lemma {:induction false} ServesAll(s: State, cs: seq<Command>)
    requires Idle(s)
    ensures var r := Exec(s, ServedAll(cs)); r.Some? && Idle(r.value)
    decreases |cs|
  {
    hide Apply, Enabled, Served;
    if cs == [] {
      assert Exec(s, []) == Some(s);
    } else {
      ServesOne(s, cs[0]);
      ServesAll(Exec(s, Served(cs[0])).value, cs[1..]);
      ExecConcat(s, Served(cs[0]), ServedAll(cs[1..]));
    }
  }

  /** The shortest ways into the loop: a new session, a loaded one, and a new one after a load that failed. */
  function Opener(resume: bool, canLoad: bool, loads: bool): seq<Action> {
    [Connected, Initialized(canLoad)]
    + (if resume && canLoad then [LoadResolved(loads)] else [])
    + (if resume && canLoad && loads then [] else [Created])
    + [Report]
  }

  lemma {:induction false} Opens(resume: bool, preamble: string, canLoad: bool, loads: bool)
    ensures var r := Exec(Start(resume, preamble), Opener(resume, canLoad, loads)); r.Some? && Idle(r.value)
  {
    var s := Start(resume, preamble);
    var loaded := if resume && canLoad then [LoadResolved(loads)] else [];
    var created := if resume && canLoad && loads then [] else [Created];
    ExecSnoc(s, [], Connected);
    assert [] + [Connected] == [Connected] && Exec(s, []) == Some(s);
    ExecSnoc(s, [Connected], Initialized(canLoad));
    assert [Connected] + [Initialized(canLoad)] == [Connected, Initialized(canLoad)];
    var start := [Connected, Initialized(canLoad)];
    if resume && canLoad {
      ExecSnoc(s, start, LoadResolved(loads));
    } else {
      assert start + loaded == start;
    }
    if resume && canLoad && loads {
      assert start + loaded + created == start + loaded;
    } else {
      ExecSnoc(s, start + loaded, Created);
    }
    ExecSnoc(s, start + loaded + created, Report);
  }

  lemma {:induction false} CommandsConcat(a: seq<Action>, b: seq<Action>)
    ensures CommandsIn(a + b) == CommandsIn(a) + CommandsIn(b)
    decreases |b|
  {
    if b == [] {
      assert a + b == a;
    } else {
      var n := |b| - 1;
      assert (a + b)[..|a| + n] == a + b[..n];
      CommandsConcat(a, b[..n]);
    }
  }

  lemma {:induction false} CommandsOfServed(cs: seq<Command>)
    ensures CommandsIn(ServedAll(cs)) == cs
  {
    if cs != [] {
      CommandsOfServed(cs[1..]);
      CommandsConcat(Served(cs[0]), ServedAll(cs[1..]));
      CommandsOfOne(cs[0]);
      assert cs == [cs[0]] + cs[1..];
    }
  }

  lemma CommandsOfOne(c: Command)
    ensures CommandsIn(Served(c)) == [c]
  {
    var steps := Served(c);
    assert steps[..2][..1] == [steps[0]] && [steps[0]][..0] == [];
    assert CommandsIn([steps[0]]) == [c];
    assert CommandsIn(steps[..2]) == [c];
  }

  lemma CommandsOfOpener(resume: bool, canLoad: bool, loads: bool)
    ensures CommandsIn(Opener(resume, canLoad, loads)) == []
  {
    NoCommands(Opener(resume, canLoad, loads));
  }

  lemma {:induction false} NoCommands(actions: seq<Action>)
    requires forall a :: a in actions ==> !a.Enqueue?
    ensures CommandsIn(actions) == []
  {
    if actions != [] {
      assert actions[|actions| - 1] in actions;
      NoCommands(actions[..|actions| - 1]);
    }
  }

  lemma {:induction false} AfterService(resume: bool, preamble: string, actions: seq<Action>, s: State)
    requires Exec(Start(resume, preamble), actions) == Some(s) && Idle(s)
    ensures s.channel.taken == CommandsIn(actions) && s.slot.delivered == [Ready] && s.talk.outerEvents == []
  {
    hide Exec, PreambleOnce, OneEventEach, Gated, Opening;
    RunTold(resume, preamble, actions);
    StartInv(resume, preamble);
    RunKeepsInv(Start(resume, preamble), actions, preamble);
    assert s.channel.taken + [] == s.channel.taken;
  }

  lemma {:induction false} Closes(s: State)
    requires Idle(s)
    ensures var r := Exec(s, [CloseSender, ReceiveClosed, Finish]);
      && r.Some? && r.value.pc.Finished? && r.value.channel.taken == s.channel.taken
      && r.value.slot == s.slot && r.value.talk == s.talk
  {
    ThreeSteps(s, CloseSender, ReceiveClosed, Finish);
  }

  /**
   For every list of commands, however the session is opened, there is a run that serves them all and then ends:
   the safety theorems are not about an empty set of runs.
   */
  lemma {:induction false} EveryCommandCanBeServed(resume: bool, preamble: string, canLoad: bool, loads: bool, cs: seq<Command>)
    returns (s: State)
    ensures Exec(Start(resume, preamble), Opener(resume, canLoad, loads) + ServedAll(cs) + [CloseSender, ReceiveClosed, Finish]) == Some(s)
    ensures s.pc.Finished? && s.channel.taken == cs && s.slot.delivered == [Ready] && s.talk.outerEvents == []
  {
    hide Exec, Served, ServedAll, Opener;
    var start, opener := Start(resume, preamble), Opener(resume, canLoad, loads);
    Opens(resume, preamble, canLoad, loads);
    var idle := Exec(start, opener).value;
    ServesAll(idle, cs);
    ExecConcat(start, opener, ServedAll(cs));
    var served := Exec(idle, ServedAll(cs)).value;
    AfterService(resume, preamble, opener + ServedAll(cs), served);
    CommandsOfOpener(resume, canLoad, loads);
    CommandsOfServed(cs);
    CommandsConcat(opener, ServedAll(cs));
    Closes(served);
    s := Exec(served, [CloseSender, ReceiveClosed, Finish]).value;
    ExecConcat(start, opener + ServedAll(cs), [CloseSender, ReceiveClosed, Finish]);
  }
}
