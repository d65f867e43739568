/**
 A generation session as a value and what each operation of the session and of the service
 makes of it.
 */
module SessionModel {
  import opened Prelude
  import opened Text
  import StringOrder

  type Time = int

  const ZERO_TIME: Time := 0

  datatype Status = Draft | AwaitingConfirmation | Queued | Generating | Validating | Ready | Failed | Cancelled

  datatype Target = Auto | Native | Web

  datatype SessionError =
    | InvalidInput
    | InvalidBaseVersion
    | InvalidTransition
    | TerminalSession
    | Conflict
    | NotFound

  datatype Message = Message(role: string, content: string, createdAt: Time)

  datatype Snapshot = Snapshot(
    initialPrompt: string,
    additionalMessages: seq<Message>,
    target: Target,
    locale: string,
    baseCardId: string,
    baseVersionId: string,
    allowedCapabilities: seq<string>,
    confirmedAt: Time)

  datatype Event = Event(
    eventId: nat,
    sessionId: string,
    kind: string,
    stage: string,
    progress: real,
    versionId: string,
    errorCode: string,
    timestamp: Time)

  datatype Session = Session(
    id: string,
    userId: string,
    prompt: string,
    target: Target,
    locale: string,
    baseCardId: string,
    baseVersionId: string,
    status: Status,
    messages: seq<Message>,
    confirmed: Option<Snapshot>,
    versionId: string,
    createdAt: Time,
    updatedAt: Time,
    events: seq<Event>,
    nextEventId: nat)

  datatype Transition = Transition(stage: string, progress: real, versionId: string, errorCode: string, at: Time)

  const DEFAULT_LOCALE := "zh-CN"
  const CAPABILITIES := ["storage", "window.manageSelf"]

  predicate IsTerminal(status: Status)
  {
    status == Ready || status == Failed || status == Cancelled
  }

  predicate Allowed(from: Status, to: Status)
  {
    match from
    case Draft => to == AwaitingConfirmation || to == Cancelled
    case AwaitingConfirmation => to == Queued || to == Cancelled
    case Queued => to == Generating || to == Cancelled || to == Failed
    case Generating => to == Validating || to == Cancelled || to == Failed
    case Validating => to == Ready || to == Cancelled || to == Failed
    case _ => false
  }

  function StatusName(status: Status): string
  {
    match status
    case Draft => "draft"
    case AwaitingConfirmation => "awaiting_confirmation"
    case Queued => "queued"
    case Generating => "generating"
    case Validating => "validating"
    case Ready => "ready"
    case Failed => "failed"
    case Cancelled => "cancelled"
  }

  // ----- operations of the session -----

  /** NewSession, on an input whose zero creation time has been replaced by the clock's. */
  function NewSession(id: string, userId: string, prompt: string, target: Target, locale: string,
                      baseCard: string, baseVersion: string, at: Time): Result<Session, SessionError>
  {
    if Blank(id) || Blank(userId) || Blank(prompt) then Err(InvalidInput)
    else if (Trim(baseCard) == "") != (Trim(baseVersion) == "") then Err(InvalidBaseVersion)
    else
      Ok(Session(id, userId, Trim(prompt), target, if Blank(locale) then DEFAULT_LOCALE else locale,
                 Trim(baseCard), Trim(baseVersion), Draft, [Message("user", Trim(prompt), at)], None, "",
                 at, at, [], 0))
  }

  function Record(s: Session, kind: string, stage: string, t: Transition): Session
  {
    s.(nextEventId := s.nextEventId + 1,
       events := s.events + [Event(s.nextEventId + 1, s.id, kind, stage, t.progress, t.versionId, t.errorCode, t.at)])
  }

  function Moved(s: Session, next: Status, t: Transition): Result<Session, SessionError>
  {
    if !Allowed(s.status, next) then Err(InvalidTransition)
    else if t.progress < 0.0 || t.progress > 1.0 then Err(InvalidInput)
    else
      var stage := if t.stage == "" then StatusName(next) else t.stage;
      Ok(Record(s.(status := next, updatedAt := t.at,
                  versionId := if t.versionId != "" then t.versionId else s.versionId),
                "status.changed", stage, t))
  }

  function WithMessage(s: Session, content: string, at: Time): Result<Session, SessionError>
  {
    if Trim(content) == "" then Err(InvalidInput)
    else if IsTerminal(s.status) then Err(TerminalSession)
    else if s.status != AwaitingConfirmation then Err(InvalidTransition)
    else
      Ok(Record(s.(messages := s.messages + [Message("user", Trim(content), at)], updatedAt := at),
                "message.added", StatusName(s.status), Transition("", 0.0, "", "", at)))
  }

  /** normalizeCapabilities: trimmed, without blanks or repeats, in order. */
  function Normalized(capabilities: seq<string>): seq<string>
  {
    StringOrder.SortedKeys(set c | c in capabilities && Trim(c) != "" :: Trim(c))
  }

  function SnapshotOf(s: Session, capabilities: seq<string>, at: Time): Snapshot
    requires s.messages != []
  {
    Snapshot(s.prompt, s.messages[1..], s.target, s.locale, s.baseCardId, s.baseVersionId, Normalized(capabilities), at)
  }

  function Confirmed(s: Session, capabilities: seq<string>, at: Time): Result<Session, SessionError>
  {
    if s.status != AwaitingConfirmation || s.confirmed.Some? then Err(InvalidTransition)
    else if s.messages == [] || s.messages[0].role != "user" || s.messages[0].content != s.prompt
      then Err(InvalidTransition)
    else
      var moved := Moved(s, Queued, Transition("queued", 0.2, "", "", at));
      if moved.Err? then moved else Ok(moved.value.(confirmed := Some(SnapshotOf(s, capabilities, at))))
  }

  function WithdrawnByUser(s: Session, at: Time): Result<Session, SessionError>
  {
    if IsTerminal(s.status) then Err(TerminalSession)
    else Moved(s, Cancelled, Transition("cancelled", 0.0, "", "", at))
  }

  // ----- operations of the service -----

  datatype ServiceCall =
    | AddMessageCall(content: string, at: Time)
    | ConfirmCall(at: Time)
    | CancelCall(at: Time)
    | StartGeneratingCall(at: Time)
    | StartValidatingCall(at: Time)
    | MarkReadyCall(versionId: string, at: Time)
    | MarkFailedCall(code: string, at: Time)

  /** Service.Create's session: new, and moved on to await confirmation. */
  function Opened(id: string, userId: string, prompt: string, target: Target, locale: string,
                  baseCard: string, baseVersion: string, at: Time): Result<Session, SessionError>
  {
    var created := NewSession(id, userId, prompt, target, locale, baseCard, baseVersion, at);
    if created.Err? then created
    else Moved(created.value, AwaitingConfirmation, Transition("requirements", 0.1, "", "", at))
  }

  /** The change function each service call hands to the repository. */
  function Change(s: Session, call: ServiceCall): Result<Session, SessionError>
  {
    match call
    case AddMessageCall(content, at) =>
      if s.status != AwaitingConfirmation then Err(Conflict) else WithMessage(s, content, at)
    case ConfirmCall(at) =>
      if s.status != AwaitingConfirmation then Err(Conflict) else Confirmed(s, CAPABILITIES, at)
    case CancelCall(at) =>
      if s.status == Cancelled then Ok(s)
      else if s.status == Ready || s.status == Failed then Err(Conflict)
      else WithdrawnByUser(s, at)
    case StartGeneratingCall(at) => Moved(s, Generating, Transition("generating", 0.35, "", "", at))
    case StartValidatingCall(at) => Moved(s, Validating, Transition("validating", 0.75, "", "", at))
    case MarkReadyCall(versionId, at) => Moved(s, Ready, Transition("ready", 1.0, versionId, "", at))
    case MarkFailedCall(code, at) =>
      if IsTerminal(s.status) then Ok(s) else Moved(s, Failed, Transition("failed", 1.0, "", code, at))
  }

  /** The repository keeps the old session when the change fails. */
  function Applied(s: Session, call: ServiceCall): Session
  {
    if Change(s, call).Ok? then Change(s, call).value else s
  }

  function Lived(s: Session, calls: seq<ServiceCall>): Session
    decreases |calls|
  {
    if calls == [] then s else Lived(Applied(s, calls[0]), calls[1..])
  }

  // ----- what the Postgres repository checks -----

  ghost predicate ValidMessage(m: Message)
  {
    m.role == "user" && !Blank(m.content) && m.createdAt != ZERO_TIME
  }

  ghost predicate ValidSnapshot(c: Snapshot)
  {
    && !Blank(c.initialPrompt)
    && (forall i :: 0 <= i < |c.additionalMessages| ==> ValidMessage(c.additionalMessages[i]))
    && !Blank(c.locale)
    && (Blank(c.baseCardId) <==> Blank(c.baseVersionId))
    && (forall i :: 0 <= i < |c.allowedCapabilities| ==> !Blank(c.allowedCapabilities[i]))
    && (forall i, j :: 0 <= i < j < |c.allowedCapabilities| ==>
          Trim(c.allowedCapabilities[i]) != Trim(c.allowedCapabilities[j]))
    && c.confirmedAt != ZERO_TIME
  }

  /** enforceConfirmedRequirementWriteOnce. */
  predicate WriteOnce(before: Session, after: Session)
  {
    if before.confirmed.None? then
      after.confirmed.Some? ==> before.status == AwaitingConfirmation && after.status == Queued
    else after.confirmed == before.confirmed
  }

  // ----- what every session keeps -----

  predicate PastConfirmation(status: Status)
  {
    status == Queued || status == Generating || status == Validating || status == Ready || status == Failed
  }

  ghost predicate MessagesOk(s: Session)
  {
    && s.messages != [] && s.messages[0].role == "user" && s.messages[0].content == s.prompt
    && forall i :: 0 <= i < |s.messages| ==> ValidMessage(s.messages[i])
  }

  /** The snapshot is absent before queueing, present after it, and still says what was confirmed. */
  ghost predicate SnapshotOk(s: Session)
  {
    && (s.status == Draft || s.status == AwaitingConfirmation ==> s.confirmed.None?)
    && (PastConfirmation(s.status) ==> s.confirmed.Some?)
    && (s.confirmed.Some? ==>
          ValidSnapshot(s.confirmed.value)
          && s.messages != []
          && s.confirmed.value == SnapshotOf(s, CAPABILITIES, s.confirmed.value.confirmedAt))
  }

  ghost predicate EventsOk(s: Session)
  {
    && s.nextEventId == |s.events|
    && forall i :: 0 <= i < |s.events| ==> s.events[i].eventId == i + 1 && s.events[i].sessionId == s.id
  }

  ghost predicate SessionOk(s: Session)
  {
    && !Blank(s.prompt) && !Blank(s.locale) && (Blank(s.baseCardId) <==> Blank(s.baseVersionId))
    && (s.baseCardId == "" <==> s.baseVersionId == "")
    && MessagesOk(s) && SnapshotOk(s) && EventsOk(s)
    && (s.versionId != "" ==> s.status == Ready)
  }

  /** How far a session has come. */
  function Phase(status: Status): nat
  {
    match status
    case Draft => 0
    case AwaitingConfirmation => 1
    case Queued => 2
    case Generating => 3
    case Validating => 4
    case _ => 5
  }

  /** What no call changes, and what only grows. */
  ghost predicate Follows(before: Session, after: Session)
  {
    && after.id == before.id && after.userId == before.userId && after.prompt == before.prompt
    && after.target == before.target && after.locale == before.locale
    && after.baseCardId == before.baseCardId && after.baseVersionId == before.baseVersionId
    && before.messages <= after.messages && before.events <= after.events
    && Phase(before.status) <= Phase(after.status)
    && (before.confirmed.Some? ==> after.confirmed == before.confirmed)
    && (IsTerminal(before.status) ==> after == before)
  }

  function TimeOf(call: ServiceCall): Time
  {
    call.at
  }

  lemma NormalizedOk(capabilities: seq<string>)
    ensures var r := Normalized(capabilities);
            && (forall i :: 0 <= i < |r| ==> !Blank(r[i]) && Trim(r[i]) == r[i])
            && (forall i, j :: 0 <= i < j < |r| ==> r[i] != r[j])
            && (forall c :: c in r <==> exists raw :: raw in capabilities && Trim(raw) != "" && Trim(raw) == c)
  {
    var r := Normalized(capabilities);
    forall i | 0 <= i < |r| ensures !Blank(r[i]) && Trim(r[i]) == r[i] {
      assert r[i] in r;
      var raw :| raw in capabilities && Trim(raw) != "" && Trim(raw) == r[i];
      TrimTrims(raw);
    }
    StringOrder.KeysDistinct(set c | c in capabilities && Trim(c) != "" :: Trim(c));
  }

  lemma OpenedOk(id: string, userId: string, prompt: string, target: Target, locale: string,
                 baseCard: string, baseVersion: string, at: Time)
    requires at != ZERO_TIME
    requires Opened(id, userId, prompt, target, locale, baseCard, baseVersion, at).Ok?
    ensures var s := Opened(id, userId, prompt, target, locale, baseCard, baseVersion, at).value;
            SessionOk(s) && s.status == AwaitingConfirmation && s.id == id && s.userId == userId
            && s.baseCardId == Trim(baseCard) && s.baseVersionId == Trim(baseVersion)
  {
    TrimTrims(prompt);
    TrimTrims(baseCard);
    TrimTrims(baseVersion);
    assert Trim(DEFAULT_LOCALE) == DEFAULT_LOCALE by {
      assert DEFAULT_LOCALE[0] == 'z' && DEFAULT_LOCALE[|DEFAULT_LOCALE| - 1] == 'N';
    }
  }

  lemma RecordOk(s: Session, kind: string, stage: string, t: Transition)
    requires EventsOk(s)
    ensures EventsOk(Record(s, kind, stage, t))
  {
  }

  /** A change of status, version and events alone keeps the messages and the snapshot in step. */
  lemma CarriedOver(s: Session, after: Session)
    requires MessagesOk(s) && SnapshotOk(s)
    requires after.prompt == s.prompt && after.target == s.target && after.locale == s.locale
    requires after.baseCardId == s.baseCardId && after.baseVersionId == s.baseVersionId
    requires after.messages == s.messages && after.confirmed == s.confirmed
    requires after.status != Draft && after.status != AwaitingConfirmation
    requires PastConfirmation(after.status) ==> PastConfirmation(s.status)
    ensures MessagesOk(after) && SnapshotOk(after)
  {
    if after.confirmed.Some? {
      var at := after.confirmed.value.confirmedAt;
      assert SnapshotOf(after, CAPABILITIES, at) == SnapshotOf(s, CAPABILITIES, at);
    }
  }

  lemma MovedFollows(s: Session, next: Status, t: Transition)
    requires Moved(s, next, t).Ok?
    ensures Follows(s, Moved(s, next, t).value)
  {
  }

  lemma MovedOk(s: Session, next: Status, t: Transition)
    requires SessionOk(s) && Moved(s, next, t).Ok?
    requires next != Queued && next != AwaitingConfirmation && (t.versionId != "" ==> next == Ready)
    ensures SessionOk(Moved(s, next, t).value) && Follows(s, Moved(s, next, t).value)
    ensures Moved(s, next, t).value.confirmed == s.confirmed
  {
    var after := Moved(s, next, t).value;
    MovedFollows(s, next, t);
    CarriedOver(s, after);
    RecordOk(s.(status := next, updatedAt := t.at, versionId := if t.versionId != "" then t.versionId else s.versionId),
             "status.changed", if t.stage == "" then StatusName(next) else t.stage, t);
  }

  lemma WithMessageOk(s: Session, content: string, at: Time)
    requires SessionOk(s) && at != ZERO_TIME && WithMessage(s, content, at).Ok?
    ensures SessionOk(WithMessage(s, content, at).value) && Follows(s, WithMessage(s, content, at).value)
    ensures WithMessage(s, content, at).value.confirmed == s.confirmed
  {
    TrimTrims(content);
    var after := WithMessage(s, content, at).value;
    assert EventsOk(after);
    assert MessagesOk(after);
  }

  lemma SnapshotValid(s: Session, capabilities: seq<string>, at: Time)
    requires SessionOk(s) && at != ZERO_TIME
    ensures ValidSnapshot(SnapshotOf(s, capabilities, at))
  {
    NormalizedOk(capabilities);
    var c := SnapshotOf(s, capabilities, at);
    forall i | 0 <= i < |c.additionalMessages| ensures ValidMessage(c.additionalMessages[i]) {
      assert c.additionalMessages[i] == s.messages[i + 1];
    }
  }

  lemma ConfirmedOk(s: Session, at: Time)
    requires SessionOk(s) && at != ZERO_TIME && s.status == AwaitingConfirmation
    ensures Confirmed(s, CAPABILITIES, at).Ok?
    ensures var after := Confirmed(s, CAPABILITIES, at).value;
            && SessionOk(after) && Follows(s, after)
            && after.status == Queued && after.confirmed == Some(SnapshotOf(s, CAPABILITIES, at))
  {
    SnapshotValid(s, CAPABILITIES, at);
    var after := Confirmed(s, CAPABILITIES, at).value;
    assert EventsOk(after) && MessagesOk(after);
    assert SnapshotOf(after, CAPABILITIES, at) == SnapshotOf(s, CAPABILITIES, at);
  }

  /** One service call keeps the invariant and the frame. */
  lemma ChangeOk(s: Session, call: ServiceCall)
    requires SessionOk(s) && TimeOf(call) != ZERO_TIME
    ensures SessionOk(Applied(s, call)) && Follows(s, Applied(s, call))
    ensures Applied(s, call).confirmed != s.confirmed ==>
            s.status == AwaitingConfirmation && Applied(s, call).status == Queued
  {
    if Change(s, call).Ok? {
      match call
      case AddMessageCall(content, at) => WithMessageOk(s, content, at);
      case ConfirmCall(at) => ConfirmedOk(s, at);
      case CancelCall(at) =>
        if s.status != Cancelled {
          MovedOk(s, Cancelled, Transition("cancelled", 0.0, "", "", at));
        }
      case StartGeneratingCall(at) => MovedOk(s, Generating, Transition("generating", 0.35, "", "", at));
      case StartValidatingCall(at) => MovedOk(s, Validating, Transition("validating", 0.75, "", "", at));
      case MarkReadyCall(versionId, at) => MovedOk(s, Ready, Transition("ready", 1.0, versionId, "", at));
      case MarkFailedCall(code, at) =>
        if !IsTerminal(s.status) {
          MovedOk(s, Failed, Transition("failed", 1.0, "", code, at));
        }
    }
  }

  /** The guard of the Postgres repository never refuses what a service call did. */
  lemma WriteOnceNeverTrips(s: Session, call: ServiceCall)
    requires SessionOk(s) && TimeOf(call) != ZERO_TIME
    ensures WriteOnce(s, Applied(s, call))
  {
    ChangeOk(s, call);
  }

  lemma FollowsTransitive(a: Session, b: Session, c: Session)
    requires Follows(a, b) && Follows(b, c)
    ensures Follows(a, c)
  {
  }

  /** Over any calls: the snapshot, once taken, is the confirmed requirement for good. */
  lemma {:induction false} SessionsKeepTheirSnapshot(s: Session, calls: seq<ServiceCall>)
    requires SessionOk(s) && forall i :: 0 <= i < |calls| ==> TimeOf(calls[i]) != ZERO_TIME
    ensures SessionOk(Lived(s, calls)) && Follows(s, Lived(s, calls))
    decreases |calls|
  {
    if calls != [] {
      var next := Applied(s, calls[0]);
      ChangeOk(s, calls[0]);
      assert forall i :: 0 <= i < |calls[1..]| ==> calls[1..][i] == calls[i + 1];
      SessionsKeepTheirSnapshot(next, calls[1..]);
      FollowsTransitive(s, next, Lived(next, calls[1..]));
    }
  }

  /** Only MarkReady makes a session ready, and it records the version it was given. */
  lemma ReadyComesFromMark(s: Session, call: ServiceCall)
    requires Change(s, call).Ok? && Change(s, call).value.status == Ready
    ensures Change(s, call).value == s
            || (call.MarkReadyCall? && (call.versionId != "" ==> Change(s, call).value.versionId == call.versionId))
  {
  }

  /** The part of the invariant a worker relies on. */
  predicate Resumable(s: Session)
  {
    && (PastConfirmation(s.status) ==> s.confirmed.Some?)
    && (s.confirmed.Some? ==>
          s.confirmed.value.baseCardId == s.baseCardId && s.confirmed.value.baseVersionId == s.baseVersionId)
  }

  lemma ChangeResumable(s: Session, call: ServiceCall)
    requires Resumable(s) && Change(s, call).Ok?
    ensures Resumable(Change(s, call).value) && Follows(s, Change(s, call).value)
  {
  }

  lemma OpenedResumable(id: string, userId: string, prompt: string, target: Target, locale: string,
                        baseCard: string, baseVersion: string, at: Time)
    requires Opened(id, userId, prompt, target, locale, baseCard, baseVersion, at).Ok?
    ensures var s := Opened(id, userId, prompt, target, locale, baseCard, baseVersion, at).value;
            Resumable(s) && s.status == AwaitingConfirmation && s.confirmed.None? && s.id == id && s.userId == userId
  {
  }
}
