/**
 The ACP session driver as a state machine: the handshake with its one-shot report, the replay gate
 around `session/load`, the command loop, and the notification handler that runs beside them.
 */
module Driver {
  import opened Text

  datatype Turn = Turn(message: string, editor: Option<string>)

  datatype Command = Prompt(turn: Turn) | SetModel(value: string)

  /** The outcome reported through the ready slot. */
  datatype Handshake = Ready | Failed(reason: string)

  datatype Event = Done | Error(message: string)

  /** An update picked up by the notification handler: whether the gate was up, and how often it had been stored by then. */
  datatype Handled = Handled(update: string, isReplay: bool, stores: nat)

  datatype Pc =
    | Connecting
    | Initializing
    | Loading
    | Creating
    | Opened
    | Looping
    | Prompting
    | SettingModel
    | MainDone(error: Option<string>)
    | Finished

  /** The one-shot report: whether it is still armed, and what has been delivered. */
  datatype Slot = Slot(armed: bool, delivered: seq<Handshake>)

  /** The replay flag, and the updates the notification handler has picked up, finished and forwarded. */
  datatype Gate = Gate(replaying: bool, stores: nat, inFlight: seq<Handled>, completed: seq<Handled>, forwarded: seq<string>)

  /** The ordered command channel. */
  datatype Channel = Channel(enqueued: seq<Command>, queue: seq<Command>, senderOpen: bool, taken: seq<Command>)

  /** What the loop has sent and emitted. `cut` says that the transport failed under a prompt. */
  datatype Talk = Talk(preamble: Option<string>, sent: seq<seq<string>>, loopEvents: seq<Event>, outerEvents: seq<Event>, cut: bool)

  datatype State = State(pc: Pc, resume: bool, slot: Slot, gate: Gate, channel: Channel, talk: Talk)

  function Start(resume: bool, preamble: string): State {
    State(Connecting, resume, Slot(true, []), Gate(false, 0, [], [], []), Channel([], [], true, []),
          Talk(Some(preamble), [], [], [], false))
  }

  /** One step of the caller, of the connection, of the driver's main function, or of the notification handler. */
  datatype Action =
    | Enqueue(command: Command)
    | CloseSender
    | SpawnFails(error: string)
    | Connected
    | InitializeFails(error: string)
    | Initialized(loadSession: bool)
    | LoadResolved(ok: bool)
    | NewFails(error: string)
    | Created
    | Report
    | Receive
    | ReceiveClosed
    | PromptDone
    | PromptFails(error: string)
    | ModelSet
    | TransportFails(error: string)
    | Finish
    | Notify(update: string)
    | Forward(k: nat)

  predicate Running(pc: Pc) {
    pc.Initializing? || pc.Loading? || pc.Creating? || pc.Opened? || pc.Looping? || pc.Prompting? || pc.SettingModel?
  }

  predicate Enabled(s: State, a: Action) {
    match a
    case Enqueue(_) => s.channel.senderOpen
    case CloseSender => s.channel.senderOpen
    case SpawnFails(_) => s.pc.Connecting?
    case Connected => s.pc.Connecting?
    case InitializeFails(_) => s.pc.Initializing?
    case Initialized(_) => s.pc.Initializing?
    case LoadResolved(_) => s.pc.Loading?
    case NewFails(_) => s.pc.Creating?
    case Created => s.pc.Creating?
    case Report => s.pc.Opened?
    case Receive => s.pc.Looping? && s.channel.queue != []
    case ReceiveClosed => s.pc.Looping? && s.channel.queue == [] && !s.channel.senderOpen
    case PromptDone => s.pc.Prompting?
    case PromptFails(_) => s.pc.Prompting?
    case ModelSet => s.pc.SettingModel?
    case TransportFails(_) => Running(s.pc)
    case Finish => s.pc.MainDone?
    case Notify(_) => Running(s.pc)
    case Forward(k) => k < |s.gate.inFlight|
  }

  /** `signal_ready`: the slot is taken by the first report, later ones find it empty. */
  function SignalReady(slot: Slot, h: Handshake): Slot {
    if slot.armed then Slot(false, slot.delivered + [h]) else slot
  }

  /** `prompt_blocks`: preamble and editor context, when present, ahead of the message. */
  function PromptBlocks(preamble: Option<string>, editor: Option<string>, message: string): seq<string> {
    (if preamble.Some? then [preamble.value] else [])
    + (if editor.Some? then [editor.value] else [])
    + [message]
  }

  function StoreReplaying(g: Gate, flag: bool): Gate {
    g.(replaying := flag, stores := g.stores + 1)
  }

  /** The handler reads the flag once, then forwards the update or drops it. */
  function PickUp(g: Gate, update: string): Gate {
    g.(inFlight := g.inFlight + [Handled(update, g.replaying, g.stores)])
  }

  function Complete(g: Gate, k: nat): Gate
    requires k < |g.inFlight|
  {
    var h := g.inFlight[k];
    Gate(g.replaying, g.stores, g.inFlight[..k] + g.inFlight[k + 1..], g.completed + [h],
         if h.isReplay then g.forwarded else g.forwarded + [h.update])
  }

  function Take(c: Channel): Channel
    requires c.queue != []
  {
    Channel(c.enqueued, c.queue[1..], c.senderOpen, c.taken + [c.queue[0]])
  }

  /** A prompt takes the preamble, if it is still there. */
  function Send(t: Talk, turn: Turn): Talk {
    t.(preamble := None, sent := t.sent + [PromptBlocks(t.preamble, turn.editor, turn.message)])
  }

  function Emit(t: Talk, e: Event): Talk { t.(loopEvents := t.loopEvents + [e]) }

  function Apply(s: State, a: Action): State
    requires Enabled(s, a)
  {
    match a
    case Enqueue(c) => s.(channel := s.channel.(enqueued := s.channel.enqueued + [c], queue := s.channel.queue + [c]))
    case CloseSender => s.(channel := s.channel.(senderOpen := false))
    case SpawnFails(e) => s.(pc := MainDone(Some(e)))
    case Connected => s.(pc := Initializing)
    case InitializeFails(e) => s.(pc := MainDone(Some(e)), slot := SignalReady(s.slot, Failed(e)))
    case Initialized(loadSession) =>
      if s.resume && loadSession then s.(pc := Loading, gate := StoreReplaying(s.gate, true)) else s.(pc := Creating)
    case LoadResolved(ok) => s.(pc := if ok then Opened else Creating, gate := StoreReplaying(s.gate, false))
    case NewFails(e) => s.(pc := MainDone(Some(e)), slot := SignalReady(s.slot, Failed(e)))
    case Created => s.(pc := Opened)
    case Report => s.(pc := Looping, slot := SignalReady(s.slot, Ready))
    case Receive =>
      (match s.channel.queue[0]
       case SetModel(_) => s.(pc := SettingModel, channel := Take(s.channel))
       case Prompt(turn) => s.(pc := Prompting, channel := Take(s.channel), talk := Send(s.talk, turn)))
    case ReceiveClosed => s.(pc := MainDone(None))
    case PromptDone => s.(pc := Looping, talk := Emit(s.talk, Done))
    case PromptFails(e) => s.(pc := MainDone(None), talk := Emit(s.talk, Error(e)))
    case ModelSet => s.(pc := Looping)
    case TransportFails(e) => s.(pc := MainDone(Some(e)), talk := s.talk.(cut := s.pc.Prompting?))
    case Finish =>
      (match s.pc.error
       case None => s.(pc := Finished)
       case Some(e) =>
         s.(pc := Finished, slot := SignalReady(s.slot, Failed(e)),
            talk := s.talk.(outerEvents := s.talk.outerEvents + [Error(e)])))
    case Notify(u) => s.(gate := PickUp(s.gate, u))
    case Forward(k) => s.(gate := Complete(s.gate, k))
  }

  function Exec(s: State, actions: seq<Action>): Option<State>
    decreases |actions|
  {
    if actions == [] then Some(s)
    else if !Enabled(s, actions[0]) then None
    else Exec(Apply(s, actions[0]), actions[1..])
  }

  // ---------- What every run keeps ----------

  /** The turns among the commands, in order. */
  function Turns(cs: seq<Command>): seq<Turn> {
    if cs == [] then []
    else
      var c := cs[|cs| - 1];
      Turns(cs[..|cs| - 1]) + (if c.Prompt? then [c.turn] else [])
  }

  /** What is sent for a list of turns: the preamble with the first and no other. */
  function BlocksFor(turns: seq<Turn>, preamble: string): seq<seq<string>> {
    if turns == [] then []
    else
      var n := |turns| - 1;
      BlocksFor(turns[..n], preamble)
      + [PromptBlocks(if n == 0 then Some(preamble) else None, turns[n].editor, turns[n].message)]
  }

  /** The updates forwarded out of those handled: all but the ones picked up between the two stores of the gate. */
  function Live(hs: seq<Handled>): seq<string> {
    if hs == [] then []
    else
      var h := hs[|hs| - 1];
      Live(hs[..|hs| - 1]) + (if h.stores == 1 then [] else [h.update])
  }

  predicate InLoop(pc: Pc) { pc.Looping? || pc.Prompting? || pc.SettingModel? }

  predicate BeforeReport(pc: Pc) { pc.Connecting? || pc.Initializing? || pc.Loading? || pc.Creating? || pc.Opened? }

  /** The handshake is reported at most once, and has been once the loop is reached or the driver ends. */
  ghost predicate ReportedOnce(pc: Pc, slot: Slot, taken: seq<Command>) {
    && |slot.delivered| == (if slot.armed then 0 else 1)
    && (InLoop(pc) || pc == MainDone(None) || taken != [] ==> slot.delivered == [Ready])
    && (pc.Finished? ==> |slot.delivered| == 1)
    && (BeforeReport(pc) ==> slot.armed && taken == [])
  }

  /** Commands are taken in the order they were sent. */
  ghost predicate Fifo(c: Channel) {
    c.taken + c.queue == c.enqueued
  }

  /** The preamble went with the first prompt and is kept for it until then. */
  ghost predicate PreambleOnce(turns: seq<Turn>, talk: Talk, preamble: string) {
    && talk.sent == BlocksFor(turns, preamble)
    && talk.preamble == if turns == [] then Some(preamble) else None
  }

  /** Each completed prompt has one event, only the last can be an error, and after it the loop is over. */
  ghost predicate OneEventEach(pc: Pc, turns: nat, talk: Talk) {
    && turns == |talk.loopEvents| + (if pc.Prompting? || talk.cut then 1 else 0)
    && (forall i :: 0 <= i < |talk.loopEvents| - 1 ==> talk.loopEvents[i] == Done)
    && (talk.loopEvents != [] && talk.loopEvents[|talk.loopEvents| - 1] != Done ==> pc == MainDone(None) || pc.Finished?)
    && (talk.cut ==> (pc.MainDone? && pc.error.Some?) || pc.Finished?)
  }

  /** The gate is up exactly between its two stores, and what was picked up then is not forwarded. */
  ghost predicate Gated(pc: Pc, g: Gate) {
    && g.stores <= 2 && (g.replaying <==> g.stores == 1)
    && (pc.Connecting? || pc.Initializing? ==> g.stores == 0)
    && (pc.Loading? ==> g.stores == 1)
    && (forall k :: 0 <= k < |g.inFlight| ==> (g.inFlight[k].isReplay <==> g.inFlight[k].stores == 1))
    && g.forwarded == Live(g.completed)
  }

  ghost predicate Inv(s: State, preamble: string) {
    && ReportedOnce(s.pc, s.slot, s.channel.taken)
    && Fifo(s.channel)
    && PreambleOnce(Turns(s.channel.taken), s.talk, preamble)
    && OneEventEach(s.pc, |Turns(s.channel.taken)|, s.talk)
    && Gated(s.pc, s.gate)
  }

  lemma {:induction false} StepReports(s: State, a: Action)
    requires Enabled(s, a) && ReportedOnce(s.pc, s.slot, s.channel.taken)
    ensures var t := Apply(s, a); ReportedOnce(t.pc, t.slot, t.channel.taken)
  {
    hide PickUp, Complete, Send, Emit, StoreReplaying;
  }

  lemma {:induction false} StepFifo(s: State, a: Action)
    requires Enabled(s, a) && Fifo(s.channel)
    ensures Fifo(Apply(s, a).channel)
  {
    hide PickUp, Complete, Send, Emit, StoreReplaying, SignalReady;
    var c := s.channel;
    if a.Receive? {
      Assoc(c.taken, [c.queue[0]], c.queue[1..]);
      assert c.queue == [c.queue[0]] + c.queue[1..];
    } else if a.Enqueue? {
      Assoc(c.taken, c.queue, [a.command]);
    }
  }

  /** The turns taken change only when a prompt is received. */
  lemma {:induction false} TurnsAfter(s: State, a: Action)
    requires Enabled(s, a)
    ensures Turns(Apply(s, a).channel.taken)
         == if a.Receive? && s.channel.queue[0].Prompt? then Turns(s.channel.taken) + [s.channel.queue[0].turn]
            else Turns(s.channel.taken)
  {
    hide PickUp, Complete, Send, Emit, StoreReplaying, SignalReady;
    if a.Receive? {
      TurnsPush(s.channel.taken, s.channel.queue[0]);
    }
  }

  lemma TurnsPush(cs: seq<Command>, c: Command)
    ensures Turns(cs + [c]) == if c.Prompt? then Turns(cs) + [c.turn] else Turns(cs)
  {
    assert (cs + [c])[..|cs|] == cs;
  }

  lemma BlocksPush(turns: seq<Turn>, turn: Turn, preamble: string)
    ensures BlocksFor(turns + [turn], preamble)
         == BlocksFor(turns, preamble)
            + [PromptBlocks(if turns == [] then Some(preamble) else None, turn.editor, turn.message)]
  {
    assert (turns + [turn])[..|turns|] == turns;
  }

  lemma {:induction false} StepPreamble(s: State, a: Action, preamble: string)
    requires Enabled(s, a) && PreambleOnce(Turns(s.channel.taken), s.talk, preamble)
    ensures PreambleOnce(Turns(Apply(s, a).channel.taken), Apply(s, a).talk, preamble)
  {
    hide PickUp, Complete, StoreReplaying, SignalReady, PromptBlocks, Turns, BlocksFor, Take;
    TurnsAfter(s, a);
    if a.Receive? && s.channel.queue[0].Prompt? {
      BlocksPush(Turns(s.channel.taken), s.channel.queue[0].turn, preamble);
    }
  }

  lemma {:induction false} StepEvents(s: State, a: Action)
    requires Enabled(s, a) && OneEventEach(s.pc, |Turns(s.channel.taken)|, s.talk)
    ensures OneEventEach(Apply(s, a).pc, |Turns(Apply(s, a).channel.taken)|, Apply(s, a).talk)
  {
    hide PickUp, Complete, StoreReplaying, SignalReady, PromptBlocks, Turns, Take;
    TurnsAfter(s, a);
  }

  lemma {:induction false} StepGate(s: State, a: Action)
    requires Enabled(s, a) && Gated(s.pc, s.gate)
    ensures Gated(Apply(s, a).pc, Apply(s, a).gate)
  {
    hide SignalReady, Send, Emit, Take;
    if a.Forward? {
      LivePush(s.gate.completed, s.gate.inFlight[a.k]);
    }
  }

  lemma LivePush(hs: seq<Handled>, h: Handled)
    ensures Live(hs + [h]) == Live(hs) + if h.stores == 1 then [] else [h.update]
  {
    assert (hs + [h])[..|hs|] == hs;
  }

  /** Every run keeps all five parts. */
  lemma {:induction false} RunKeepsInv(s: State, actions: seq<Action>, preamble: string)
    requires Inv(s, preamble)
    ensures Exec(s, actions).Some? ==> Inv(Exec(s, actions).value, preamble)
    decreases |actions|
  {
    hide Apply, Enabled, ReportedOnce, Fifo, PreambleOnce, OneEventEach, Gated, Turns;
    if actions != [] && Enabled(s, actions[0]) {
      StepReports(s, actions[0]);
      StepFifo(s, actions[0]);
      StepPreamble(s, actions[0], preamble);
      StepEvents(s, actions[0]);
      StepGate(s, actions[0]);
      RunKeepsInv(Apply(s, actions[0]), actions[1..], preamble);
    }
  }

  lemma StartInv(resume: bool, preamble: string)
    ensures Inv(Start(resume, preamble), preamble)
  {
  }

  // ---------- The protocol over whole runs ----------

  lemma {:induction false} BlocksAt(turns: seq<Turn>, preamble: string, i: nat)
    requires i < |turns|
    ensures |BlocksFor(turns, preamble)| == |turns|
    ensures BlocksFor(turns, preamble)[i]
         == PromptBlocks(if i == 0 then Some(preamble) else None, turns[i].editor, turns[i].message)
  {
    hide PromptBlocks;
    var n := |turns| - 1;
    if n > 0 {
      BlocksAt(turns[..n], preamble, if i < n then i else 0);
    }
  }

  lemma NoTurnsNoBlocks(preamble: string)
    ensures BlocksFor([], preamble) == []
  {
  }

  /** The handshake outcome: at most one, and exactly one in a run that reaches the loop or ends. */
  lemma {:induction false} HandshakeReported(resume: bool, preamble: string, actions: seq<Action>, s: State)
    requires Exec(Start(resume, preamble), actions) == Some(s)
    ensures |s.slot.delivered| <= 1
    ensures InLoop(s.pc) || s.pc.Finished? ==> |s.slot.delivered| == 1
    ensures s.channel.taken != [] ==> s.slot.delivered == [Ready]
  {
    hide Exec, PreambleOnce, OneEventEach, Gated, Fifo;
    StartInv(resume, preamble);
    RunKeepsInv(Start(resume, preamble), actions, preamble);
  }

  /**
   Commands are taken first in, first out, and the i-th prompt sent is its message, after its editor context
   if it has one, after the preamble if i is 0.
   */
  lemma {:induction false} PromptsInOrder(resume: bool, preamble: string, actions: seq<Action>, s: State, i: nat)
    requires Exec(Start(resume, preamble), actions) == Some(s)
    ensures s.channel.taken <= s.channel.enqueued
    ensures var turns := Turns(s.channel.taken);
      && |s.talk.sent| == |turns|
      && (i < |turns| ==>
            s.talk.sent[i] == (if i == 0 then [preamble] else [])
                              + (match turns[i].editor case Some(context) => [context] case None => [])
                              + [turns[i].message])
  {
    hide Exec, OneEventEach, Gated, ReportedOnce, Turns, BlocksFor;
    StartInv(resume, preamble);
    RunKeepsInv(Start(resume, preamble), actions, preamble);
    var turns := Turns(s.channel.taken);
    NoTurnsNoBlocks(preamble);
    if turns != [] {
      BlocksAt(turns, preamble, if i < |turns| then i else 0);
    }
  }

  /** Every prompt taken has exactly one loop event, except one still running or cut off by the transport. */
  lemma {:induction false} OneEventPerPrompt(resume: bool, preamble: string, actions: seq<Action>, s: State)
    requires Exec(Start(resume, preamble), actions) == Some(s)
    ensures |Turns(s.channel.taken)| == |s.talk.loopEvents| + if s.pc.Prompting? || s.talk.cut then 1 else 0
    ensures forall i :: 0 <= i < |s.talk.loopEvents| - 1 ==> s.talk.loopEvents[i] == Done
  {
    hide Exec, PreambleOnce, Gated, Fifo, ReportedOnce, Turns;
    StartInv(resume, preamble);
    RunKeepsInv(Start(resume, preamble), actions, preamble);
  }

  predicate LastIsError(s: State) {
    s.talk.loopEvents != [] && s.talk.loopEvents[|s.talk.loopEvents| - 1].Error?
  }

  lemma {:induction false} ErrorIsLast(s: State, actions: seq<Action>)
    requires OneEventEach(s.pc, |Turns(s.channel.taken)|, s.talk) && LastIsError(s)
    ensures var r := Exec(s, actions);
      r.Some? ==>
        && r.value.channel.taken == s.channel.taken
        && r.value.talk.sent == s.talk.sent && r.value.talk.loopEvents == s.talk.loopEvents
    decreases |actions|
  {
    hide PickUp, Complete, StoreReplaying, SignalReady, Turns;
    if actions != [] && Enabled(s, actions[0]) {
      StepEvents(s, actions[0]);
      ErrorIsLast(Apply(s, actions[0]), actions[1..]);
    }
  }

  /** In every run, after an error nothing more is taken, sent or emitted by the loop, whatever happens next. */
  lemma {:induction false} NothingAfterError(resume: bool, preamble: string, before: seq<Action>, s: State, after: seq<Action>)
    requires Exec(Start(resume, preamble), before) == Some(s) && LastIsError(s)
    ensures var r := Exec(s, after);
      r.Some? ==>
        && r.value.channel.taken == s.channel.taken
        && r.value.talk.sent == s.talk.sent && r.value.talk.loopEvents == s.talk.loopEvents
  {
    hide Exec, PreambleOnce, Gated, Fifo, ReportedOnce, Turns, LastIsError, OneEventEach;
    StartInv(resume, preamble);
    RunKeepsInv(Start(resume, preamble), before, preamble);
    ErrorIsLast(s, after);
  }

  /** Exactly the updates picked up outside the replay are forwarded, in the order they were finished. */
  lemma {:induction false} ReplaySuppressed(resume: bool, preamble: string, actions: seq<Action>, s: State)
    requires Exec(Start(resume, preamble), actions) == Some(s)
    ensures s.gate.forwarded == Live(s.gate.completed)
    ensures s.gate.replaying <==> s.gate.stores == 1
  {
    hide Exec, PreambleOnce, OneEventEach, Fifo, ReportedOnce;
    StartInv(resume, preamble);
    RunKeepsInv(Start(resume, preamble), actions, preamble);
  }
}
