/**
 The life of a session over any calls of its users and workers: the one road its status takes, with the
 stages and the progress it reports, and the messages it ends up with.
 */
module SessionLife {
  import opened Prelude
  import opened SessionModel
  import opened Text

  // ----- which call is answered where -----

  /** The status after a call, or none where the call is refused. */
  function Leads(status: Status, call: ServiceCall): Option<Status>
  {
    match call
    case AddMessageCall(content, _) =>
      if status == AwaitingConfirmation && !Blank(content) then Some(AwaitingConfirmation) else None
    case ConfirmCall(_) => if status == AwaitingConfirmation then Some(Queued) else None
    case CancelCall(_) => if status == Ready || status == Failed then None else Some(Cancelled)
    case StartGeneratingCall(_) => if status == Queued then Some(Generating) else None
    case StartValidatingCall(_) => if status == Generating then Some(Validating) else None
    case MarkReadyCall(_, _) => if status == Validating then Some(Ready) else None
    case MarkFailedCall(_, _) =>
      if status == Ready || status == Cancelled then Some(status)
      else if status == Draft || status == AwaitingConfirmation then None
      else Some(Failed)
  }

  lemma OthersAnswered(s: Session, call: ServiceCall)
    requires !call.ConfirmCall?
    ensures Change(s, call).Ok? <==> Leads(s.status, call).Some?
    ensures Change(s, call).Ok? ==> Change(s, call).value.status == Leads(s.status, call).value
  {
  }

  /** A call is answered exactly in the statuses it belongs to, and leads on from there. */
  lemma AnsweredIff(s: Session, call: ServiceCall)
    requires SessionOk(s) && TimeOf(call) != ZERO_TIME
    ensures Change(s, call).Ok? <==> Leads(s.status, call).Some?
    ensures Change(s, call).Ok? ==> Change(s, call).value.status == Leads(s.status, call).value
  {
    if !call.ConfirmCall? {
      OthersAnswered(s, call);
    } else if s.status == AwaitingConfirmation {
      ConfirmedOk(s, call.at);
    }
  }

  // ----- the road of a session -----

  datatype Milestone = Milestone(stage: string, progress: real)

  const ROAD: seq<Milestone> := [Milestone("requirements", 0.1), Milestone("queued", 0.2),
    Milestone("generating", 0.35), Milestone("validating", 0.75), Milestone("ready", 1.0)]

  /** The changes of status among the events. */
  function Milestones(events: seq<Event>): seq<Milestone>
  {
    if events == [] then []
    else
      var last := events[|events| - 1];
      Milestones(events[..|events| - 1])
      + if last.kind == "status.changed" then [Milestone(last.stage, last.progress)] else []
  }

  /** The session has come so far along its road, and has left it where it failed or was cancelled. */
  predicate OnRoad(s: Session)
  {
    var m := Milestones(s.events);
    match s.status
    case Draft => m == []
    case AwaitingConfirmation => m == ROAD[..1]
    case Queued => m == ROAD[..2]
    case Generating => m == ROAD[..3]
    case Validating => m == ROAD[..4]
    case Ready => m == ROAD
    case Failed => exists n :: 2 <= n <= 4 && m == ROAD[..n] + [Milestone("failed", 1.0)]
    case Cancelled => exists n :: 0 <= n <= 4 && m == ROAD[..n] + [Milestone("cancelled", 0.0)]
  }

  lemma MovedAlong(s: Session, next: Status, t: Transition)
    requires Moved(s, next, t).Ok? && t.stage != ""
    ensures Milestones(Moved(s, next, t).value.events)
            == Milestones(s.events) + [Milestone(t.stage, t.progress)]
  {
    var after := Moved(s, next, t).value.events;
    assert after[..|after| - 1] == s.events;
  }

  lemma SpokenStays(s: Session, content: string, at: Time)
    requires WithMessage(s, content, at).Ok?
    ensures Milestones(WithMessage(s, content, at).value.events) == Milestones(s.events)
  {
    var after := WithMessage(s, content, at).value.events;
    assert after[..|after| - 1] == s.events;
  }

  lemma LeavesRoad(s: Session, after: Session, n: nat, milestone: Milestone)
    requires n <= 4 && Milestones(s.events) == ROAD[..n]
             && Milestones(after.events) == Milestones(s.events) + [milestone]
    requires (after.status == Failed && n >= 2 && milestone == Milestone("failed", 1.0))
             || (after.status == Cancelled && milestone == Milestone("cancelled", 0.0))
    ensures OnRoad(after)
  {
  }

  lemma GoesAlong(s: Session, next: Status, t: Transition, n: nat)
    requires Moved(s, next, t).Ok? && 1 <= n <= 4 && Milestones(s.events) == ROAD[..n]
    requires t.stage == ROAD[n].stage && t.progress == ROAD[n].progress
    ensures Milestones(Moved(s, next, t).value.events) == ROAD[..n + 1]
  {
    MovedAlong(s, next, t);
    assert ROAD[..n + 1] == ROAD[..n] + [Milestone(t.stage, t.progress)];
  }

  lemma ConfirmedGoesAlong(s: Session, at: Time)
    requires Confirmed(s, CAPABILITIES, at).Ok? && OnRoad(s)
    ensures OnRoad(Confirmed(s, CAPABILITIES, at).value)
  {
    GoesAlong(s, Queued, Transition("queued", 0.2, "", "", at), 1);
  }

  lemma WorkGoesAlong(s: Session, call: ServiceCall)
    requires call.StartGeneratingCall? || call.StartValidatingCall? || call.MarkReadyCall?
    requires OnRoad(s) && Change(s, call).Ok?
    ensures OnRoad(Change(s, call).value)
  {
    match call
    case StartGeneratingCall(at) => GoesAlong(s, Generating, Transition("generating", 0.35, "", "", at), 2);
    case StartValidatingCall(at) => GoesAlong(s, Validating, Transition("validating", 0.75, "", "", at), 3);
    case MarkReadyCall(versionId, at) =>
      GoesAlong(s, Ready, Transition("ready", 1.0, versionId, "", at), 4);
      assert ROAD[..5] == ROAD;
  }

  /** How far along the road a session is that has not finished. */
  function Along(status: Status): nat
  {
    match status
    case Draft => 0
    case AwaitingConfirmation => 1
    case Queued => 2
    case Generating => 3
    case _ => 4
  }

  lemma EndGoesAlong(s: Session, call: ServiceCall)
    requires call.CancelCall? || call.MarkFailedCall?
    requires OnRoad(s) && Change(s, call).Ok? && !IsTerminal(s.status)
    ensures OnRoad(Change(s, call).value)
  {
    var after, n := Change(s, call).value, Along(s.status);
    assert Milestones(s.events) == ROAD[..n];
    match call
    case CancelCall(at) =>
      MovedAlong(s, Cancelled, Transition("cancelled", 0.0, "", "", at));
      LeavesRoad(s, after, n, Milestone("cancelled", 0.0));
    case MarkFailedCall(code, at) =>
      MovedAlong(s, Failed, Transition("failed", 1.0, "", code, at));
      LeavesRoad(s, after, n, Milestone("failed", 1.0));
  }

  lemma StaysOnRoad(s: Session, call: ServiceCall)
    requires OnRoad(s)
    ensures OnRoad(Applied(s, call))
  {
    if Change(s, call).Ok? {
      match call
      case AddMessageCall(content, at) => SpokenStays(s, content, at);
      case ConfirmCall(at) => ConfirmedGoesAlong(s, at);
      case CancelCall(_) => if !IsTerminal(s.status) { EndGoesAlong(s, call); }
      case MarkFailedCall(_, _) => if !IsTerminal(s.status) { EndGoesAlong(s, call); }
      case _ => WorkGoesAlong(s, call);
    }
  }

  lemma {:induction false} LivedOnRoad(s: Session, calls: seq<ServiceCall>)
    requires OnRoad(s)
    ensures OnRoad(Lived(s, calls))
    decreases |calls|
  {
    if calls != [] {
      StaysOnRoad(s, calls[0]);
      LivedOnRoad(Applied(s, calls[0]), calls[1..]);
    }
  }

  /**
   Whatever calls a new session gets, it reports the milestones of its one road in order, as far as it
   has come, and at most one failure or cancellation after them.
   */
  lemma SessionsKeepToTheRoad(id: string, userId: string, prompt: string, target: Target, locale: string,
                              baseCard: string, baseVersion: string, at: Time, calls: seq<ServiceCall>)
    requires Opened(id, userId, prompt, target, locale, baseCard, baseVersion, at).Ok?
    ensures OnRoad(Lived(Opened(id, userId, prompt, target, locale, baseCard, baseVersion, at).value, calls))
  {
    var created := NewSession(id, userId, prompt, target, locale, baseCard, baseVersion, at).value;
    MovedAlong(created, AwaitingConfirmation, Transition("requirements", 0.1, "", "", at));
    assert ROAD[..1] == [Milestone("requirements", 0.1)];
    LivedOnRoad(Opened(id, userId, prompt, target, locale, baseCard, baseVersion, at).value, calls);
  }

  // ----- what the user said -----

  /** What a call adds to what was said. */
  function Heard(call: ServiceCall): seq<Message>
  {
    if call.AddMessageCall? && !Blank(call.content) then [Message("user", Trim(call.content), call.at)] else []
  }

  /** The messages that count: trimmed, not blank, and before the session is confirmed or cancelled. */
  function Said(calls: seq<ServiceCall>): seq<Message>
    decreases |calls|
  {
    if calls == [] || calls[0].ConfirmCall? || calls[0].CancelCall? then [] else Heard(calls[0]) + Said(calls[1..])
  }

  /** Once a session no longer waits for its confirmation, nothing is added to its messages. */
  lemma {:induction false} NothingAdded(s: Session, calls: seq<ServiceCall>)
    requires Phase(s.status) >= 2
    ensures Lived(s, calls).messages == s.messages
    decreases |calls|
  {
    if calls != [] {
      NothingAdded(Applied(s, calls[0]), calls[1..]);
    }
  }

  /** The session waits for its confirmation, its prompt being its first message. */
  predicate Talking(s: Session)
  {
    && s.status == AwaitingConfirmation && s.confirmed.None? && s.messages != []
    && s.messages[0].role == "user" && s.messages[0].content == s.prompt
  }

  /** A call adds what is heard, and only confirming and cancelling end the talk. */
  lemma OneHeard(s: Session, call: ServiceCall)
    requires Talking(s)
    ensures Applied(s, call).messages == s.messages + Heard(call)
    ensures if call.ConfirmCall? || call.CancelCall? then Phase(Applied(s, call).status) >= 2
            else Talking(Applied(s, call))
  {
  }

  /** Over any calls, a session holds its prompt and what its user said before confirming it. */
  lemma {:induction false} MessagesAreSaid(s: Session, calls: seq<ServiceCall>)
    requires Talking(s)
    ensures Lived(s, calls).messages == s.messages + Said(calls)
    decreases |calls|
  {
    if calls != [] {
      OneHeard(s, calls[0]);
      if calls[0].ConfirmCall? || calls[0].CancelCall? {
        NothingAdded(Applied(s, calls[0]), calls[1..]);
      } else {
        MessagesAreSaid(Applied(s, calls[0]), calls[1..]);
      }
    }
  }

  /** What is confirmed is the prompt and exactly what the user said, in the user's order. */
  lemma ConfirmedIsSaid(id: string, userId: string, prompt: string, target: Target, locale: string,
                        baseCard: string, baseVersion: string, at: Time, calls: seq<ServiceCall>)
    requires Opened(id, userId, prompt, target, locale, baseCard, baseVersion, at).Ok? && at != ZERO_TIME
    requires forall i :: 0 <= i < |calls| ==> TimeOf(calls[i]) != ZERO_TIME
    ensures var s := Lived(Opened(id, userId, prompt, target, locale, baseCard, baseVersion, at).value, calls);
            && s.messages == [Message("user", Trim(prompt), at)] + Said(calls)
            && (s.confirmed.Some? ==>
                  && s.confirmed.value.initialPrompt == Trim(prompt) && s.confirmed.value.target == target
                  && s.confirmed.value.locale == (if Blank(locale) then "zh-CN" else locale)
                  && s.confirmed.value.baseCardId == Trim(baseCard)
                  && s.confirmed.value.baseVersionId == Trim(baseVersion)
                  && s.confirmed.value.additionalMessages == Said(calls))
  {
    var opened_ := Opened(id, userId, prompt, target, locale, baseCard, baseVersion, at).value;
    OpenedOk(id, userId, prompt, target, locale, baseCard, baseVersion, at);
    MessagesAreSaid(opened_, calls);
    SessionsKeepTheirSnapshot(opened_, calls);
  }
}
