/** The coding agent's bounded loops over the model provider. */
module ModelAttempts {
  import opened Prelude

  const MAX_MODEL_ATTEMPTS: nat := 3

  datatype Reply = Answer(content: string) | ProviderError(retryable: bool)

  datatype AgentError = Interrupted | Provider | ValidationFailed

  type Files = map<string, string>

  /** The outside: the provider, the validator, the sandbox, and when the context is cancelled. */
  datatype World = World(
    provider: (nat, string) -> Reply,
    validate: string -> Result<(), string>,
    decode: string -> Result<Files, string>,
    build: Files -> Result<Files, string>,
    cancelled: nat -> bool,
    waitCancelled: nat -> bool)

  /** What one attempt comes to, given the feedback of the attempts before it. */
  datatype Attempt<T> =
    | Accepted(output: T)
    | Rejected(feedback: string)
    | Transient
    | Broken(error: AgentError)

  const NO_FILES := "sandbox produced no files"

  function Asked<T>(w: World, attempt: nat, feedback: string, check: string -> Result<T, string>): Attempt<T>
  {
    if w.cancelled(attempt) then Broken(Interrupted)
    else
      match w.provider(attempt, feedback)
      case ProviderError(retryable) =>
        if !retryable || attempt >= MAX_MODEL_ATTEMPTS then Broken(Provider)
        else if w.waitCancelled(attempt) then Broken(Interrupted)
        else Transient
      case Answer(content) =>
        match check(content)
        case Ok(output) => Accepted(output)
        case Err(problem) => Rejected(problem)
  }

  function CheckNative(w: World, content: string): Result<string, string>
  {
    if w.validate(content).Ok? then Ok(content) else Err(w.validate(content).error)
  }

  function CheckWeb(w: World, content: string): Result<(Files, Files), string>
  {
    var files := w.decode(content);
    if files.Err? then Err(files.error)
    else
      var output := w.build(files.value);
      if output.Err? then Err(output.error)
      else if |output.value| == 0 then Err(NO_FILES)
      else Ok((output.value, files.value))
  }

  /** The two checks as functions of the answer alone. */
  function NativeCheck(w: World): string -> Result<string, string>
  {
    content => CheckNative(w, content)
  }

  function WebCheck(w: World): string -> Result<(Files, Files), string>
  {
    content => CheckWeb(w, content)
  }

  /** The feedback an attempt is given: the problem of the latest rejected answer. */
  function FeedbackAt<T>(w: World, attempt: nat, check: string -> Result<T, string>): string
  {
    if attempt <= 1 then ""
    else
      var earlier := FeedbackAt(w, attempt - 1, check);
      var was := Asked(w, attempt - 1, earlier, check);
      if was.Rejected? then was.feedback else earlier
  }

  function AttemptAt<T>(w: World, attempt: nat, check: string -> Result<T, string>): Attempt<T>
  {
    Asked(w, attempt, FeedbackAt(w, attempt, check), check)
  }

  /** An attempt is made when none before it was accepted or broke off. */
  predicate Made<T>(w: World, attempt: nat, check: string -> Result<T, string>)
  {
    && 1 <= attempt <= MAX_MODEL_ATTEMPTS
    && forall k :: 1 <= k < attempt ==> AttemptAt(w, k, check).Rejected? || AttemptAt(w, k, check).Transient?
  }

  /** How the loop must end: with the first attempt that is accepted or breaks off, or out of attempts. */
  ghost predicate EndsWith<T>(w: World, check: string -> Result<T, string>, r: Result<T, AgentError>, attempts: nat)
  {
    && Made(w, attempts, check)
    && match AttemptAt(w, attempts, check)
       case Accepted(output) => r == Ok(output)
       case Broken(error) => r == Err(error)
       case _ => attempts == MAX_MODEL_ATTEMPTS && r == Err(ValidationFailed)
  }

  /** The attempt the loop ends with, from a given one on. */
  function EndFrom<T>(w: World, attempt: nat, check: string -> Result<T, string>): nat
    decreases MAX_MODEL_ATTEMPTS - attempt
  {
    var here := AttemptAt(w, attempt, check);
    if attempt >= MAX_MODEL_ATTEMPTS || here.Accepted? || here.Broken? then attempt else EndFrom(w, attempt + 1, check)
  }

  function ResultOf<T>(w: World, check: string -> Result<T, string>): Result<T, AgentError>
  {
    match AttemptAt(w, EndFrom(w, 1, check), check)
    case Accepted(output) => Ok(output)
    case Broken(error) => Err(error)
    case _ => Err(ValidationFailed)
  }

  /** Every attempt asks the provider once, but for a last one that finds the context cancelled. */
  function CallsOf<T>(w: World, check: string -> Result<T, string>): nat
  {
    var last := EndFrom(w, 1, check);
    if w.cancelled(last) && last > 0 then last - 1 else last
  }

  lemma {:induction false} EndIsEnd<T>(w: World, attempt: nat, check: string -> Result<T, string>)
    requires Made(w, attempt, check)
    ensures var last := EndFrom(w, attempt, check);
            && Made(w, last, check)
            && (last < MAX_MODEL_ATTEMPTS ==> AttemptAt(w, last, check).Accepted? || AttemptAt(w, last, check).Broken?)
    decreases MAX_MODEL_ATTEMPTS - attempt
  {
    var here := AttemptAt(w, attempt, check);
    if attempt < MAX_MODEL_ATTEMPTS && !here.Accepted? && !here.Broken? {
      EndIsEnd(w, attempt + 1, check);
    }
  }

  /** The loop's end as functions: it ends so, and within its attempts. */
  lemma EndsThere<T>(w: World, check: string -> Result<T, string>)
    ensures EndsWith(w, check, ResultOf(w, check), EndFrom(w, 1, check))
    ensures CallsOf(w, check) <= EndFrom(w, 1, check) <= MAX_MODEL_ATTEMPTS
  {
    EndIsEnd(w, 1, check);
  }

  /** However the loop ended, it is the end the functions give. */
  lemma EndedThere<T>(w: World, check: string -> Result<T, string>, r: Result<T, AgentError>, attempts: nat, calls: nat)
    requires EndsWith(w, check, r, attempts) && calls == if w.cancelled(attempts) then attempts - 1 else attempts
    ensures r == ResultOf(w, check) && attempts == EndFrom(w, 1, check) && calls == CallsOf(w, check)
  {
    EndsThere(w, check);
    EndIsUnique(w, check, r, attempts, ResultOf(w, check), EndFrom(w, 1, check));
  }

  /** Generate's loop for native cards; `calls` counts the requests to the provider. */
  method Generate(w: World) returns (r: Result<string, AgentError>, attempts: nat, calls: nat)
    ensures EndsWith(w, NativeCheck(w), r, attempts)
    ensures calls <= attempts <= MAX_MODEL_ATTEMPTS
    ensures calls == if w.cancelled(attempts) then attempts - 1 else attempts
    ensures r.Ok? ==> w.validate(r.value).Ok?
  {
    ghost var check := NativeCheck(w);
    var feedback := "";
    calls := 0;
    attempts := 1;
    while true
      invariant 1 <= attempts <= MAX_MODEL_ATTEMPTS && calls == attempts - 1
      invariant Made(w, attempts, check) && feedback == FeedbackAt(w, attempts, check)
      decreases MAX_MODEL_ATTEMPTS - attempts
    {
      if w.cancelled(attempts) {
        return Err(Interrupted), attempts, calls;
      }
      var reply := w.provider(attempts, feedback);
      calls := calls + 1;
      match reply {
        case ProviderError(retryable) =>
          if !(retryable && attempts < MAX_MODEL_ATTEMPTS) {
            return Err(Provider), attempts, calls;
          }
          if w.waitCancelled(attempts) {
            return Err(Interrupted), attempts, calls;
          }
        case Answer(content) =>
          var verdict := w.validate(content);
          if verdict.Ok? {
            return Ok(content), attempts, calls;
          }
          feedback := verdict.error;
      }
      if attempts == MAX_MODEL_ATTEMPTS {
        return Err(ValidationFailed), attempts, calls;
      }
      attempts := attempts + 1;
    }
  }

  /** generateWeb's loop: decode, build in the sandbox, and insist on some output. */
  method GenerateWeb(w: World) returns (r: Result<(Files, Files), AgentError>, attempts: nat, calls: nat)
    ensures EndsWith(w, WebCheck(w), r, attempts)
    ensures calls <= attempts <= MAX_MODEL_ATTEMPTS
    ensures calls == if w.cancelled(attempts) then attempts - 1 else attempts
    ensures r.Ok? ==> w.build(r.value.1) == Ok(r.value.0) && |r.value.0| > 0
  {
    ghost var check := WebCheck(w);
    var feedback := "";
    calls := 0;
    attempts := 1;
    while true
      invariant 1 <= attempts <= MAX_MODEL_ATTEMPTS && calls == attempts - 1
      invariant Made(w, attempts, check) && feedback == FeedbackAt(w, attempts, check)
      decreases MAX_MODEL_ATTEMPTS - attempts
    {
      if w.cancelled(attempts) {
        return Err(Interrupted), attempts, calls;
      }
      var reply := w.provider(attempts, feedback);
      calls := calls + 1;
      match reply {
        case ProviderError(retryable) =>
          if !(retryable && attempts < MAX_MODEL_ATTEMPTS) {
            return Err(Provider), attempts, calls;
          }
          if w.waitCancelled(attempts) {
            return Err(Interrupted), attempts, calls;
          }
        case Answer(content) =>
          var files := w.decode(content);
          if files.Err? {
            feedback := files.error;
          } else {
            var output := w.build(files.value);
            if output.Err? {
              feedback := output.error;
            } else if |output.value| == 0 {
              feedback := NO_FILES;
            } else {
              return Ok((output.value, files.value)), attempts, calls;
            }
          }
      }
      if attempts == MAX_MODEL_ATTEMPTS {
        return Err(ValidationFailed), attempts, calls;
      }
      attempts := attempts + 1;
    }
  }

  /** The end is determined: the loops cannot stop anywhere else. */
  lemma EndIsUnique<T>(w: World, check: string -> Result<T, string>,
                       r: Result<T, AgentError>, attempts: nat, s: Result<T, AgentError>, other: nat)
    requires EndsWith(w, check, r, attempts) && EndsWith(w, check, s, other)
    ensures r == s && attempts == other
  {
    var mine, yours := AttemptAt(w, attempts, check), AttemptAt(w, other, check);
    assert attempts < MAX_MODEL_ATTEMPTS ==> mine.Accepted? || mine.Broken?;
    assert other < MAX_MODEL_ATTEMPTS ==> yours.Accepted? || yours.Broken?;
  }

  // ----- the agent as the worker sees it -----

  /** The agent refuses a request it cannot serve before it asks the model; else it runs one of its loops. */
  datatype Agent = Refusing | NativeAgent(world: World) | WebAgent(world: World)

  predicate Succeeds(a: Agent)
  {
    match a
    case Refusing => false
    case NativeAgent(w) => ResultOf(w, NativeCheck(w)).Ok?
    case WebAgent(w) => ResultOf(w, WebCheck(w)).Ok?
  }

  function CallsBy(a: Agent): nat
  {
    match a
    case Refusing => 0
    case NativeAgent(w) => CallsOf(w, NativeCheck(w))
    case WebAgent(w) => CallsOf(w, WebCheck(w))
  }

  /** One request of the worker asks the model at most three times. */
  lemma CallsAreFew(a: Agent)
    ensures CallsBy(a) <= MAX_MODEL_ATTEMPTS
  {
    match a
    case Refusing =>
    case NativeAgent(w) => EndsThere(w, NativeCheck(w));
    case WebAgent(w) => EndsThere(w, WebCheck(w));
  }

  method Ask(a: Agent) returns (ok: bool, calls: nat)
    ensures ok <==> Succeeds(a)
    ensures calls == CallsBy(a)
  {
    match a {
      case Refusing =>
        return false, 0;
      case NativeAgent(w) =>
        var r, attempts, n := Generate(w);
        EndedThere(w, NativeCheck(w), r, attempts, n);
        return r.Ok?, n;
      case WebAgent(w) =>
        var r, attempts, n := GenerateWeb(w);
        EndedThere(w, WebCheck(w), r, attempts, n);
        return r.Ok?, n;
    }
  }
}
