/** The session as the record its methods update in place, and the checks on its snapshot. */
module SessionRecord {
  import opened Prelude
  import opened Text
  import opened SessionModel
  import StringOrder

  method NormalizeCapabilities(capabilities: seq<string>) returns (normalized: seq<string>)
    ensures normalized == Normalized(capabilities)
  {
    var unique: set<string> := {};
    for i := 0 to |capabilities|
      invariant unique == set c | c in capabilities[..i] && Trim(c) != "" :: Trim(c)
    {
      assert capabilities[..i + 1] == capabilities[..i] + [capabilities[i]];
      var capability := Trim(capabilities[i]);
      if capability != "" {
        unique := unique + {capability};
      }
    }
    assert capabilities[..|capabilities|] == capabilities;
    normalized := StringOrder.SortedKeys(unique);
  }

  /** validateConfirmedRequirement, message by message and capability by capability. */
  method ValidateConfirmedRequirement(c: Snapshot) returns (ok: bool)
    ensures ok <==> ValidSnapshot(c)
  {
    if Blank(c.initialPrompt) {
      return false;
    }
    for i := 0 to |c.additionalMessages|
      invariant forall k :: 0 <= k < i ==> ValidMessage(c.additionalMessages[k])
    {
      var message := c.additionalMessages[i];
      if message.role != "user" || Blank(message.content) || message.createdAt == ZERO_TIME {
        assert !ValidMessage(c.additionalMessages[i]);
        return false;
      }
    }
    if Blank(c.locale) || Blank(c.baseCardId) != Blank(c.baseVersionId) {
      return false;
    }
    var seen: set<string> := {};
    for i := 0 to |c.allowedCapabilities|
      invariant seen == set k | 0 <= k < i :: Trim(c.allowedCapabilities[k])
      invariant forall k :: 0 <= k < i ==> !Blank(c.allowedCapabilities[k])
      invariant forall j, k :: 0 <= j < k < i ==> Trim(c.allowedCapabilities[j]) != Trim(c.allowedCapabilities[k])
    {
      var capability := Trim(c.allowedCapabilities[i]);
      if capability == "" || capability in seen {
        return false;
      }
      seen := seen + {capability};
    }
    ok := c.confirmedAt != ZERO_TIME;
  }

  class SessionObject {
    const id: string
    const userId: string
    const prompt: string
    const target: Target
    const locale: string
    const baseCardId: string
    const baseVersionId: string
    const createdAt: Time
    var status: Status
    var messages: seq<Message>
    var confirmed: Option<Snapshot>
    var versionId: string
    var updatedAt: Time
    var events: seq<Event>
    var nextEventId: nat

    function Value(): Session
      reads this
    {
      Session(id, userId, prompt, target, locale, baseCardId, baseVersionId, status, messages, confirmed, versionId,
              createdAt, updatedAt, events, nextEventId)
    }

    /** cloneSession: an object of its own holding the same session. */
    constructor Clone(s: Session)
      ensures Value() == s
    {
      id, userId, prompt, target, locale := s.id, s.userId, s.prompt, s.target, s.locale;
      baseCardId, baseVersionId, createdAt := s.baseCardId, s.baseVersionId, s.createdAt;
      status, messages, confirmed, versionId := s.status, s.messages, s.confirmed, s.versionId;
      updatedAt, events, nextEventId := s.updatedAt, s.events, s.nextEventId;
    }

    method Transition(next: Status, t: SessionModel.Transition) returns (r: Result<Event, SessionError>)
      modifies this
      ensures r.Ok? <==> Moved(old(Value()), next, t).Ok?
      ensures r.Ok? ==> Value() == Moved(old(Value()), next, t).value && events == old(events) + [r.value]
      ensures r.Err? ==> Value() == old(Value()) && r.error == Moved(old(Value()), next, t).error
    {
      if !Allowed(status, next) {
        return Err(InvalidTransition);
      }
      if t.progress < 0.0 || t.progress > 1.0 {
        return Err(InvalidInput);
      }
      ghost var moved := Moved(Value(), next, t).value;
      var stage := if t.stage == "" then StatusName(next) else t.stage;
      status := next;
      updatedAt := t.at;
      if t.versionId != "" {
        versionId := t.versionId;
      }
      nextEventId := nextEventId + 1;
      var event := Event(nextEventId, id, "status.changed", stage, t.progress, t.versionId, t.errorCode, t.at);
      events := events + [event];
      assert Value() == moved;
      return Ok(event);
    }

    method AddMessage(content: string, at: Time) returns (r: Result<Event, SessionError>)
      modifies this
      ensures r.Ok? <==> WithMessage(old(Value()), content, at).Ok?
      ensures r.Ok? ==> Value() == WithMessage(old(Value()), content, at).value && events == old(events) + [r.value]
      ensures r.Err? ==> Value() == old(Value()) && r.error == WithMessage(old(Value()), content, at).error
    {
      var text := Trim(content);
      if text == "" {
        return Err(InvalidInput);
      }
      if IsTerminal(status) {
        return Err(TerminalSession);
      }
      if status != AwaitingConfirmation {
        return Err(InvalidTransition);
      }
      messages := messages + [Message("user", text, at)];
      updatedAt := at;
      nextEventId := nextEventId + 1;
      var event := Event(nextEventId, id, "message.added", StatusName(status), 0.0, "", "", at);
      events := events + [event];
      return Ok(event);
    }

    method Confirm(capabilities: seq<string>, at: Time) returns (r: Result<Event, SessionError>)
      modifies this
      ensures r.Ok? <==> Confirmed(old(Value()), capabilities, at).Ok?
      ensures r.Ok? ==> Value() == Confirmed(old(Value()), capabilities, at).value && events == old(events) + [r.value]
      ensures r.Err? ==> Value() == old(Value()) && r.error == Confirmed(old(Value()), capabilities, at).error
    {
      if status != AwaitingConfirmation || confirmed.Some? {
        return Err(InvalidTransition);
      }
      if messages == [] || messages[0].role != "user" || messages[0].content != prompt {
        return Err(InvalidTransition);
      }
      var allowed := NormalizeCapabilities(capabilities);
      var snapshot := Snapshot(prompt, messages[1..], target, locale, baseCardId, baseVersionId, allowed, at);
      r := Transition(Queued, SessionModel.Transition("queued", 0.2, "", "", at));
      if r.Ok? {
        confirmed := Some(snapshot);
      }
    }

    method Cancel(at: Time) returns (r: Result<Event, SessionError>)
      modifies this
      ensures r.Ok? <==> WithdrawnByUser(old(Value()), at).Ok?
      ensures r.Ok? ==> Value() == WithdrawnByUser(old(Value()), at).value && events == old(events) + [r.value]
      ensures r.Err? ==> Value() == old(Value()) && r.error == WithdrawnByUser(old(Value()), at).error
    {
      if IsTerminal(status) {
        return Err(TerminalSession);
      }
      r := Transition(Cancelled, SessionModel.Transition("cancelled", 0.0, "", "", at));
    }
  }

  class MemoryRepository {
    var sessions: map<string, Session>

    constructor ()
      ensures sessions == map[]
    {
      sessions := map[];
    }

    method Create(s: Session) returns (r: Result<(), SessionError>)
      modifies this
      ensures r == if s.id in old(sessions) then Err(Conflict) else Ok(())
      ensures sessions == if s.id in old(sessions) then old(sessions) else old(sessions)[s.id := s]
    {
      if s.id in sessions {
        return Err(Conflict);
      }
      sessions := sessions[s.id := s];
      return Ok(());
    }

    method Get(userId: string, id: string) returns (r: Result<Session, SessionError>)
      ensures r == if id in sessions && sessions[id].userId == userId then Ok(sessions[id]) else Err(NotFound)
    {
      if id !in sessions || sessions[id].userId != userId {
        return Err(NotFound);
      }
      return Ok(sessions[id]);
    }

    /** UpdateSystem: the change runs on a clone, which replaces the stored session only on success. */
    method UpdateSystem(id: string, change: Session -> Result<Session, SessionError>)
      returns (r: Result<Session, SessionError>)
      modifies this
      ensures r == if id in old(sessions) then change(old(sessions)[id]) else Err(NotFound)
      ensures sessions == if r.Ok? then old(sessions)[id := r.value] else old(sessions)
    {
      if id !in sessions {
        return Err(NotFound);
      }
      r := change(sessions[id]);
      if r.Ok? {
        sessions := sessions[id := r.value];
      }
    }

    method Update(userId: string, id: string, change: Session -> Result<Session, SessionError>)
      returns (r: Result<Session, SessionError>)
      modifies this
      ensures r == if id in old(sessions) && old(sessions)[id].userId == userId
              then change(old(sessions)[id]) else Err(NotFound)
      ensures sessions == if r.Ok? then old(sessions)[id := r.value] else old(sessions)
    {
      if id !in sessions || sessions[id].userId != userId {
        return Err(NotFound);
      }
      r := change(sessions[id]);
      if r.Ok? {
        sessions := sessions[id := r.value];
      }
    }
  }
}
