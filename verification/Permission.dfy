/**
 The permission policy of a chat session: the pure decision, the session's grants, and every
 interleaving of the requests an agent has in flight.
 */
module Permission {
  import opened Text

  datatype Decision = AllowOnce | AllowAlways | Deny

  datatype Resolution = Resolution(allow: bool, remember: bool)

  datatype OptionKind = KindAllowOnce | KindAllowAlways | KindRejectOnce | KindRejectAlways

  datatype PermissionOption = PermissionOption(id: string, kind: OptionKind)

  datatype Outcome = Selected(option: PermissionOption) | Cancelled

  /** The title and kind of a tool call, if it has them, and the options offered. */
  datatype Request = Request(title: Option<string>, kind: Option<string>, options: seq<PermissionOption>) {
    /** The key under which a grant is remembered: the title unless it is empty, then the kind, then a placeholder. */
    function Tool(): (t: string)
      ensures forall name :: title == Some(name) && name != "" ==> t == name
      ensures (title == None || title == Some("")) && kind.Some? ==> kind == Some(t)
      ensures (title == None || title == Some("")) && kind.None? ==> t == "tool"
    {
      if title.Some? && title.value != "" then title.value
      else if kind.Some? then kind.value
      else "tool"
    }
  }

  function ResolvePermission(readOnly: bool, alreadyAlways: bool, decision: Option<Decision>): Resolution {
    if readOnly then Resolution(true, false)
    else if alreadyAlways then Resolution(true, false)
    else
      match decision
      case Some(AllowOnce) => Resolution(true, false)
      case Some(AllowAlways) => Resolution(true, true)
      case Some(Deny) => Resolution(false, false)
      case None => Resolution(false, false)
  }

  // ---------- The option answered ----------

  predicate IsAllow(kind: OptionKind) { kind.KindAllowOnce? || kind.KindAllowAlways? }

  function FirstOfKind(options: seq<PermissionOption>, kind: OptionKind): Outcome {
    if options == [] then Cancelled
    else if options[0].kind == kind then Selected(options[0])
    else FirstOfKind(options[1..], kind)
  }

  function SelectOption(options: seq<PermissionOption>, allow: bool, preferAlways: bool): Outcome {
    var (first, second) :=
      if allow && preferAlways then (KindAllowAlways, KindAllowOnce)
      else if allow then (KindAllowOnce, KindAllowAlways)
      else (KindRejectOnce, KindRejectAlways);
    if FirstOfKind(options, first).Selected? then FirstOfKind(options, first) else FirstOfKind(options, second)
  }

  lemma {:induction false} FirstOfKindIs(options: seq<PermissionOption>, kind: OptionKind)
    ensures var r := FirstOfKind(options, kind);
      && (r.Selected? ==> r.option in options && r.option.kind == kind)
      && (r.Cancelled? <==> forall o :: o in options ==> o.kind != kind)
  {
    if options != [] {
      FirstOfKindIs(options[1..], kind);
      assert forall o :: o in options <==> o == options[0] || o in options[1..];
    }
  }

  /** An offered option of the decided polarity is answered, and it is cancelled only when there is none. */
  lemma {:induction false} SelectedPolarity(options: seq<PermissionOption>, allow: bool, preferAlways: bool)
    ensures var r := SelectOption(options, allow, preferAlways);
      && (r.Selected? ==> r.option in options && IsAllow(r.option.kind) == allow)
      && (r.Cancelled? <==> forall o :: o in options ==> IsAllow(o.kind) != allow)
      && (r.Selected? && r.option.kind == KindAllowAlways && !preferAlways ==> forall o :: o in options ==> o.kind != KindAllowOnce)
  {
    FirstOfKindIs(options, KindAllowOnce);
    FirstOfKindIs(options, KindAllowAlways);
    FirstOfKindIs(options, KindRejectOnce);
    FirstOfKindIs(options, KindRejectAlways);
  }

  /** The outcome is the earliest option of the preferred kind, failing that the earliest of the other kind, failing that none. */
  ghost predicate RightAnswer(options: seq<PermissionOption>, preferred: OptionKind, other: OptionKind, outcome: Outcome) {
    if exists o :: o in options && o.kind == preferred then Earliest(options, preferred, outcome)
    else if exists o :: o in options && o.kind == other then Earliest(options, other, outcome)
    else outcome == Cancelled
  }

  ghost predicate Earliest(options: seq<PermissionOption>, kind: OptionKind, outcome: Outcome) {
    exists i :: 0 <= i < |options| && options[i].kind == kind && outcome == Selected(options[i])
             && forall j :: 0 <= j < i ==> options[j].kind != kind
  }

  /** What a decision is answered with: a lone allow or a lone refusal for choice, always only for an always. */
  ghost predicate AnswersDecision(options: seq<PermissionOption>, decision: Option<Decision>, outcome: Outcome) {
    match decision
    case Some(Deny) => RightAnswer(options, KindRejectOnce, KindRejectAlways, outcome)
    case Some(AllowAlways) => RightAnswer(options, KindAllowAlways, KindAllowOnce, outcome)
    case _ => RightAnswer(options, KindAllowOnce, KindAllowAlways, outcome)
  }

  lemma {:induction false} FirstIsEarliest(options: seq<PermissionOption>, kind: OptionKind)
    ensures FirstOfKind(options, kind).Selected? ==> Earliest(options, kind, FirstOfKind(options, kind))
  {
    if options != [] && options[0].kind != kind {
      FirstIsEarliest(options[1..], kind);
      var rest := FirstOfKind(options[1..], kind);
      if rest.Selected? {
        var i :| 0 <= i < |options| - 1 && options[1..][i].kind == kind && rest == Selected(options[1..][i])
              && forall j :: 0 <= j < i ==> options[1..][j].kind != kind;
        assert options[i + 1] == options[1..][i];
        assert forall j :: 0 < j < i + 1 ==> options[j] == options[1..][j - 1];
      }
    }
  }

  /** Refusing answers a lone refusal if one is offered, allowing always an always, allowing otherwise a lone allow. */
  lemma {:induction false} SelectedAnswers(options: seq<PermissionOption>, decision: Option<Decision>)
    ensures AnswersDecision(options, decision, SelectOption(options, decision != Some(Deny), decision == Some(AllowAlways)))
  {
    hide Earliest;
    FirstOfKindIs(options, KindAllowOnce);
    FirstOfKindIs(options, KindAllowAlways);
    FirstOfKindIs(options, KindRejectOnce);
    FirstOfKindIs(options, KindRejectAlways);
    FirstIsEarliest(options, KindAllowOnce);
    FirstIsEarliest(options, KindAllowAlways);
    FirstIsEarliest(options, KindRejectOnce);
    FirstIsEarliest(options, KindRejectAlways);
  }

  // ---------- One request on its own ----------

  class PermissionState {
    var always: set<string>

    constructor ()
      ensures always == {}
    {
      always := {};
    }

    method IsAlways(tool: string) returns (r: bool)
      ensures r <==> tool in always
    {
      r := tool in always;
    }

    method Remember(tool: string)
      modifies this
      ensures always == old(always) + {tool}
    {
      always := always + {tool};
    }
  }

  /** A request answered without anything else in flight: the decider is asked exactly when nothing else settles it. */
  method AnswerPermission(req: Request, readOnly: bool, state: PermissionState, decide: Request -> Decision)
    returns (outcome: Outcome, asked: bool)
    modifies state
    ensures asked <==> !readOnly && req.Tool() !in old(state.always)
    ensures state.always == old(state.always) + (if asked && decide(req) == AllowAlways then {req.Tool()} else {})
    ensures AnswersDecision(req.options, if asked then Some(decide(req)) else None, outcome)
  {
    hide AnswersDecision, SelectOption;
    var alreadyAlways := false;
    if !readOnly {
      alreadyAlways := state.IsAlways(req.Tool());
    }
    var decision := None;
    asked := !(readOnly || alreadyAlways);
    if asked {
      decision := Some(decide(req));
    }
    var resolution := ResolvePermission(readOnly, alreadyAlways, decision);
    if resolution.remember {
      state.Remember(req.Tool());
    }
    outcome := SelectOption(req.options, resolution.allow, resolution.remember);
    SelectedAnswers(req.options, decision);
  }

  // ---------- Requests in flight ----------

  /** Where a request stands. `seen` is the set of grants at the moment the request checked them. */
  datatype Phase =
    | Waiting
    | Asking(seen: set<string>)
    | Settled(seen: set<string>, decision: Option<Decision>, outcome: Outcome)

  datatype Flight = Flight(request: Request, phase: Phase)

  datatype Session = Session(readOnly: bool, seeded: set<string>, grants: set<string>, flights: seq<Flight>)

  /** A request arrives, checks the grants, or has its decider answer; nothing else is atomic across requests. */
  datatype Action =
    | Arrive(request: Request)
    | Check(i: nat)
    | Decide(j: nat, decision: Decision)

  predicate Enabled(s: Session, a: Action) {
    match a
    case Arrive(_) => true
    case Check(i) => i < |s.flights| && s.flights[i].phase.Waiting?
    case Decide(i, _) => i < |s.flights| && s.flights[i].phase.Asking?
  }

  function Moved(s: Session, i: nat, phase: Phase): Session
    requires i < |s.flights|
  {
    s.(flights := s.flights[i := s.flights[i].(phase := phase)])
  }

  function Apply(s: Session, a: Action): Session
    requires Enabled(s, a)
  {
    match a
    case Arrive(request) => s.(flights := s.flights + [Flight(request, Waiting)])
    case Check(i) =>
      var req := s.flights[i].request;
      var already := !s.readOnly && req.Tool() in s.grants;
      if s.readOnly || already then
        var r := ResolvePermission(s.readOnly, already, None);
        Moved(s, i, Settled(s.grants, None, SelectOption(req.options, r.allow, r.remember)))
      else Moved(s, i, Asking(s.grants))
    case Decide(i, decision) =>
      var req := s.flights[i].request;
      var r := ResolvePermission(s.readOnly, false, Some(decision));
      var settled := Moved(s, i, Settled(s.flights[i].phase.seen, Some(decision), SelectOption(req.options, r.allow, r.remember)));
      if r.remember then settled.(grants := s.grants + {req.Tool()}) else settled
  }

  /** Where a list of actions leads, if each is enabled in turn. */
  function Exec(s: Session, actions: seq<Action>): Option<Session>
    decreases |actions|
  {
    if actions == [] then Some(s)
    else if !Enabled(s, actions[0]) then None
    else Exec(Apply(s, actions[0]), actions[1..])
  }

  function Start(readOnly: bool, seeded: set<string>): Session {
    Session(readOnly, seeded, seeded, [])
  }

  // ---------- What every run keeps ----------

  predicate AlwaysAllowed(f: Flight) {
    f.phase.Settled? && f.phase.decision == Some(AllowAlways)
  }

  /** The grants are the seeded tools and those some request's decider allowed always. */
  ghost predicate GrantsExplained(s: Session) {
    forall tool :: tool in s.grants <==>
      tool in s.seeded || exists i :: 0 <= i < |s.flights| && AlwaysAllowed(s.flights[i]) && s.flights[i].request.Tool() == tool
  }

  /** The request was allowed: silently by scope or by grant at check time, or by its decider. */
  predicate Allowed(readOnly: bool, f: Flight)
    requires f.phase.Settled?
  {
    readOnly || f.request.Tool() in f.phase.seen
    || f.phase.decision == Some(AllowOnce) || f.phase.decision == Some(AllowAlways)
  }

  /** What holds of one request in a session. */
  ghost predicate FlightSound(s: Session, f: Flight) {
    match f.phase
    case Waiting => true
    case Asking(seen) => !s.readOnly && s.seeded <= seen <= s.grants && f.request.Tool() !in seen
    case Settled(seen, decision, outcome) =>
      && s.seeded <= seen <= s.grants
      && (decision.None? <==> s.readOnly || f.request.Tool() in seen)
      && outcome == SelectOption(f.request.options, Allowed(s.readOnly, f), decision == Some(AllowAlways))
  }

  ghost predicate Inv(s: Session) {
    && (forall i :: 0 <= i < |s.flights| ==> FlightSound(s, s.flights[i]))
    && (!s.readOnly ==> GrantsExplained(s))
    && (s.readOnly ==> s.grants == s.seeded)
  }

  lemma CheckedSound(s: Session, i: nat)
    requires Inv(s) && Enabled(s, Check(i))
    ensures FlightSound(Apply(s, Check(i)), Apply(s, Check(i)).flights[i])
  {
    hide SelectOption, GrantsExplained;
    assert FlightSound(s, s.flights[i]);
    assert s.seeded <= s.grants by { SeededStay(s); }
  }

  lemma DecidedSound(s: Session, i: nat, decision: Decision)
    requires Inv(s) && Enabled(s, Decide(i, decision))
    ensures FlightSound(Apply(s, Decide(i, decision)), Apply(s, Decide(i, decision)).flights[i])
  {
    hide SelectOption, GrantsExplained;
    assert FlightSound(s, s.flights[i]);
  }

  lemma SeededStay(s: Session)
    requires Inv(s)
    ensures s.seeded <= s.grants
  {
  }

  lemma {:induction false} ApplyKeepsFlights(s: Session, a: Action)
    requires Inv(s) && Enabled(s, a)
    ensures var t := Apply(s, a);
      && s.grants <= t.grants && t.seeded == s.seeded && t.readOnly == s.readOnly
      && forall i :: 0 <= i < |t.flights| ==> FlightSound(t, t.flights[i])
  {
    hide SelectOption, GrantsExplained;
    var t := Apply(s, a);
    match a {
      case Arrive(_) =>
      case Check(j) => CheckedSound(s, j);
      case Decide(j, decision) => DecidedSound(s, j, decision);
    }
    forall i | 0 <= i < |s.flights|
      ensures FlightSound(t, t.flights[i])
    {
      assert FlightSound(s, s.flights[i]);
    }
  }

  lemma {:induction false} ApplyKeepsGrants(s: Session, a: Action)
    requires Inv(s) && Enabled(s, a)
    ensures var t := Apply(s, a);
      && (!t.readOnly ==> GrantsExplained(t))
      && (t.readOnly ==> t.grants == t.seeded)
  {
    hide SelectOption, FlightSound;
    var t := Apply(s, a);
    if a.Decide? { assert FlightSound(s, s.flights[a.j]); AskingIsReadWrite(s, a.j); }
    if !s.readOnly {
      forall tool
        ensures tool in t.grants <==>
          tool in t.seeded || exists i :: 0 <= i < |t.flights| && AlwaysAllowed(t.flights[i]) && t.flights[i].request.Tool() == tool
      {
        if tool in s.grants && tool !in s.seeded {
          var i :| 0 <= i < |s.flights| && AlwaysAllowed(s.flights[i]) && s.flights[i].request.Tool() == tool;
          assert AlwaysAllowed(t.flights[i]) && t.flights[i].request.Tool() == tool;
        }
        if tool in t.grants && tool !in s.grants {
          assert AlwaysAllowed(t.flights[a.j]) && t.flights[a.j].request.Tool() == tool;
        }
        if i :| 0 <= i < |t.flights| && AlwaysAllowed(t.flights[i]) && t.flights[i].request.Tool() == tool {
          if i < |s.flights| && s.flights[i] == t.flights[i] {
            assert AlwaysAllowed(s.flights[i]);
          }
        }
      }
    }
  }

  lemma AskingIsReadWrite(s: Session, i: nat)
    requires i < |s.flights| && s.flights[i].phase.Asking? && FlightSound(s, s.flights[i])
    ensures !s.readOnly
  {
  }

  /** Every run keeps the invariant, and its grants only grow. */
  lemma {:induction false} RunKeepsInv(s: Session, actions: seq<Action>)
    requires Inv(s)
    ensures var r := Exec(s, actions);
      r.Some? ==> Inv(r.value) && s.grants <= r.value.grants && r.value.seeded == s.seeded && r.value.readOnly == s.readOnly
    decreases |actions|
  {
    hide Apply, FlightSound, GrantsExplained;
    if actions != [] && Enabled(s, actions[0]) {
      ApplyKeepsFlights(s, actions[0]);
      ApplyKeepsGrants(s, actions[0]);
      RunKeepsInv(Apply(s, actions[0]), actions[1..]);
    }
  }

  /**
   Permission safety in a read-write session, under every interleaving: the grants are exactly the seeded
   tools plus those the decider allowed always; the decider was bypassed exactly when the tool was granted
   at check time; and an allow-kind option is answered only if granted then or allowed by the decider.
   */
  lemma {:induction false} ReadWriteSafety(seeded: set<string>, actions: seq<Action>, s: Session, i: nat)
    requires Exec(Start(false, seeded), actions) == Some(s)
    ensures s.seeded == seeded && GrantsExplained(s)
    ensures i < |s.flights| && s.flights[i].phase.Settled? ==>
      var f := s.flights[i];
      var p := f.phase;
      && seeded <= p.seen <= s.grants
      && (p.decision.None? <==> f.request.Tool() in p.seen)
      && (p.outcome.Selected? && IsAllow(p.outcome.option.kind) ==>
            f.request.Tool() in p.seen || p.decision == Some(AllowOnce) || p.decision == Some(AllowAlways))
      && AnswersDecision(f.request.options, p.decision, p.outcome)
  {
    hide SelectOption, GrantsExplained, AnswersDecision;
    InitialInv(false, seeded);
    RunKeepsInv(Start(false, seeded), actions);
    if i < |s.flights| && s.flights[i].phase.Settled? {
      var f := s.flights[i];
      assert FlightSound(s, f);
      SelectedPolarity(f.request.options, Allowed(false, f), f.phase.decision == Some(AllowAlways));
      AllowedUnlessDenied(f);
      SelectedAnswers(f.request.options, f.phase.decision);
    }
  }

  lemma AllowedUnlessDenied(f: Flight)
    requires f.phase.Settled? && (f.phase.decision.None? <==> f.request.Tool() in f.phase.seen)
    ensures Allowed(false, f) <==> f.phase.decision != Some(Deny)
  {
    match f.phase.decision
    case None =>
    case Some(AllowOnce) =>
    case Some(AllowAlways) =>
    case Some(Deny) =>
  }

  lemma InitialInv(readOnly: bool, seeded: set<string>)
    ensures Inv(Start(readOnly, seeded))
  {
  }

  /** In a read-only session nothing is ever granted, asked, or refused while an allowing option is offered. */
  lemma {:induction false} ReadOnlySilence(seeded: set<string>, actions: seq<Action>, s: Session, i: nat)
    requires Exec(Start(true, seeded), actions) == Some(s) && i < |s.flights|
    ensures s.grants == seeded
    ensures !s.flights[i].phase.Asking?
    ensures var f := s.flights[i];
      f.phase.Settled? ==>
        && f.phase.decision.None?
        && AnswersDecision(f.request.options, None, f.phase.outcome)
        && (f.phase.outcome.Cancelled? <==> forall o :: o in f.request.options ==> !IsAllow(o.kind))
        && (f.phase.outcome.Selected? ==> IsAllow(f.phase.outcome.option.kind))
  {
    hide SelectOption, GrantsExplained, AnswersDecision;
    InitialInv(true, seeded);
    RunKeepsInv(Start(true, seeded), actions);
    var f := s.flights[i];
    assert FlightSound(s, f);
    SelectedPolarity(f.request.options, true, false);
    SelectedAnswers(f.request.options, None);
  }

  /** The check itself: in a read-write session the decider is asked exactly when the tool is not granted then. */
  lemma CheckAsksUngranted(s: Session, i: nat)
    requires Enabled(s, Check(i)) && !s.readOnly
    ensures Apply(s, Check(i)).flights[i].phase.Asking? <==> s.flights[i].request.Tool() !in s.grants
    ensures var p := Apply(s, Check(i)).flights[i].phase; p.seen == s.grants
  {
    hide SelectOption;
  }

  /** What a request saw at its check is never changed afterwards, nor is an answer once given. */
  lemma SeenIsKept(s: Session, a: Action, i: nat)
    requires Enabled(s, a) && i < |s.flights| && !s.flights[i].phase.Waiting?
    ensures var p, q := s.flights[i].phase, Apply(s, a).flights[i].phase;
      && !q.Waiting? && q.seen == p.seen
      && (p.Settled? ==> q == p)
  {
    hide SelectOption;
  }

  /** Nothing keeps a request from arriving, from checking, or from being decided as its decider likes. */
  lemma {:induction false} RequestCanSettle(s: Session, request: Request, decision: Decision)
    ensures exists actions :: var r := Exec(s, [Arrive(request)] + actions);
      && r.Some? && |r.value.flights| == |s.flights| + 1
      && var f := r.value.flights[|s.flights|];
         && f.request == request && f.phase.Settled?
         && f.phase.decision == if s.readOnly || request.Tool() in s.grants then None else Some(decision)
  {
    hide SelectOption;
    var i := |s.flights|;
    var arrived := Apply(s, Arrive(request));
    var checked := Apply(arrived, Check(i));
    if checked.flights[i].phase.Asking? {
      var actions := [Check(i), Decide(i, decision)];
      ThreeSteps(s, Arrive(request), Check(i), Decide(i, decision));
      assert [Arrive(request)] + actions == [Arrive(request), Check(i), Decide(i, decision)];
    } else {
      var actions := [Check(i)];
      TwoSteps(s, Arrive(request), Check(i));
      assert [Arrive(request)] + actions == [Arrive(request), Check(i)];
    }
  }

  lemma TwoSteps(s: Session, a: Action, b: Action)
    requires Enabled(s, a) && Enabled(Apply(s, a), b)
    ensures Exec(s, [a, b]) == Some(Apply(Apply(s, a), b))
  {
    hide Apply, Enabled;
    var t := Apply(s, a);
    assert [a, b][1..] == [b] && [b][1..] == [];
    assert Exec(Apply(t, b), []) == Some(Apply(t, b));
    assert Exec(t, [b]) == Some(Apply(t, b));
  }

  lemma ThreeSteps(s: Session, a: Action, b: Action, c: Action)
    requires Enabled(s, a) && Enabled(Apply(s, a), b) && Enabled(Apply(Apply(s, a), b), c)
    ensures Exec(s, [a, b, c]) == Some(Apply(Apply(Apply(s, a), b), c))
  {
    hide Apply, Enabled;
    TwoSteps(Apply(s, a), b, c);
    assert [a, b, c][1..] == [b, c];
  }
}
