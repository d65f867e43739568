/** The generation service: sessions in a repository, jobs in a queue, events on streams. */
module GenerationService {
  import opened Prelude
  import opened SessionModel
  import opened SessionRecord
  import opened EventStreams
  import JobModel
  import MemoryJobs
  import PublishModel
  import Publishing

  datatype ServiceError = Refused(error: SessionError) | QueueDown

  /** What the version catalog answers about a base. */
  predicate Owned(catalog: Publishing.Publisher, userId: string, cardId: string, versionId: string)
    reads catalog.versions
  {
    && versionId in catalog.versions.versions
    && PublishModel.SameCard(catalog.versions.versions[versionId], userId, cardId)
  }

  class Service {
    const repository: MemoryRepository
    const queue: MemoryJobs.MemoryStore
    var hub: Hub

    ghost predicate Valid()
      reads this, queue
    {
      queue.Valid() && Registered(hub)
    }

    constructor (repository: MemoryRepository, queue: MemoryJobs.MemoryStore)
      requires queue.Valid()
      ensures Valid() && this.repository == repository && this.queue == queue && hub == Hub(map[], map[])
    {
      this.repository, this.queue := repository, queue;
      hub := Hub(map[], map[]);
    }

    /** publishLocked: one stream after the other, in any order. */
    method PublishLocked(s: Session)
      requires Registered(hub)
      modifies this
      ensures hub == PublishAll(old(hub), s.id, s.events) && Registered(hub)
    {
      var rest := StreamsOf(hub, s.id);
      ghost var all := rest;
      ghost var start := hub;
      while rest != {}
        invariant rest <= all && hub.streams == start.streams
        invariant hub.channels == map h | h in start.channels ::
                    if h in all - rest then PublishTo(start.channels[h], s.events) else start.channels[h]
      {
        var h :| h in rest;
        var after := PublishStream(hub.channels[h], s.events);
        hub := hub.(channels := hub.channels[h := after]);
        rest := rest - {h};
      }
      forall h | h in start.channels
        ensures PublishTo(start.channels[h], s.events).sessionId == start.channels[h].sessionId
        ensures PublishTo(start.channels[h], s.events).open == start.channels[h].open
      {
        PublishKeeps(start.channels[h], s.events);
      }
      RegisteredAfter(start, hub.channels);
    }

    /** updateSystem, for every call that does not name a user. */
    method UpdateSystem(id: string, call: ServiceCall) returns (r: Result<Session, SessionError>)
      requires Valid()
      modifies this, repository
      ensures Valid()
      ensures r == if id in old(repository.sessions) then Change(old(repository.sessions)[id], call) else Err(NotFound)
      ensures repository.sessions == if r.Ok? then old(repository.sessions)[id := r.value] else old(repository.sessions)
      ensures hub == if r.Ok? then PublishAll(old(hub), r.value.id, r.value.events) else old(hub)
    {
      r := repository.UpdateSystem(id, s => Change(s, call));
      if r.Ok? {
        PublishLocked(r.value);
      }
    }

    method UpdateOwned(userId: string, id: string, call: ServiceCall) returns (r: Result<Session, SessionError>)
      requires Valid()
      modifies this, repository
      ensures Valid()
      ensures r == if id in old(repository.sessions) && old(repository.sessions)[id].userId == userId
                   then Change(old(repository.sessions)[id], call) else Err(NotFound)
      ensures repository.sessions == if r.Ok? then old(repository.sessions)[id := r.value] else old(repository.sessions)
      ensures hub == if r.Ok? then PublishAll(old(hub), r.value.id, r.value.events) else old(hub)
    {
      r := repository.Update(userId, id, s => Change(s, call));
      if r.Ok? {
        PublishLocked(r.value);
      }
    }

    /** Create; without a catalog no base version is anybody's. */
    method Create(newId: string, userId: string, prompt: string, target: Target, locale: string,
                  baseCard: string, baseVersion: string, catalog: Option<Publishing.Publisher>, at: Time)
      returns (r: Result<Session, SessionError>)
      requires Valid()
      modifies repository
      ensures Valid() && hub == old(hub)
      ensures var s := Opened(newId, userId, prompt, target, locale, baseCard, baseVersion, at);
              r == if s.Err? then s
                   else if s.value.baseCardId != ""
                           && !(catalog.Some? && Owned(catalog.value, userId, s.value.baseCardId,
                                                          s.value.baseVersionId)) then
                     Err(NotFound)
                   else if newId in old(repository.sessions) then Err(Conflict) else s
      ensures repository.sessions
              == if r.Ok? then old(repository.sessions)[newId := r.value] else old(repository.sessions)
    {
      var created := NewSession(newId, userId, prompt, target, locale, baseCard, baseVersion, at);
      if created.Err? {
        return created;
      }
      if created.value.baseCardId != "" {
        if catalog.None? {
          return Err(NotFound);
        }
        var owned := catalog.value.OwnsVersion(userId, created.value.baseCardId, created.value.baseVersionId);
        if !owned {
          return Err(NotFound);
        }
      }
      var draft := new SessionObject.Clone(created.value);
      var event := draft.Transition(AwaitingConfirmation, SessionModel.Transition("requirements", 0.1, "", "", at));
      assert event.Ok?;  // a draft may always move on
      var s := draft.Value();
      var stored := repository.Create(s);
      if stored.Err? {
        return Err(stored.error);
      }
      return Ok(s);
    }

    /** Confirm, then queue the job; if the queue is down the session fails instead, a moment later. */
    method Confirm(userId: string, id: string, newJobId: string, queueUp: bool, at: Time, later: Time)
      returns (r: Result<Session, ServiceError>)
      requires Valid() && newJobId !in queue.jobs
      modifies this, repository, queue
      ensures Valid()
      ensures var owned := id in old(repository.sessions) && old(repository.sessions)[id].userId == userId;
              var changed := if owned then Change(old(repository.sessions)[id], ConfirmCall(at)) else Err(NotFound);
              if changed.Err? then
                && r == Err(Refused(changed.error)) && hub == old(hub)
                && repository.sessions == old(repository.sessions) && queue.jobs == old(queue.jobs)
              else if queueUp then
                && r == Ok(changed.value) && hub == PublishAll(old(hub), changed.value.id, changed.value.events)
                && repository.sessions == old(repository.sessions)[id := changed.value]
                && (queue.jobs, queue.session)
                   == JobModel.Enqueue(old(queue.jobs), old(queue.session), newJobId, id, at)
              else
                var failed := Change(changed.value, MarkFailedCall("JOB_ENQUEUE_FAILED", later));
                var confirmed := PublishAll(old(hub), changed.value.id, changed.value.events);
                && r == Err(QueueDown) && queue.jobs == old(queue.jobs)
                && repository.sessions
                   == old(repository.sessions)[id := if failed.Ok? then failed.value else changed.value]
                && hub == if failed.Ok? then PublishAll(confirmed, failed.value.id, failed.value.events) else confirmed
    {
      var changed := UpdateOwned(userId, id, ConfirmCall(at));
      if changed.Err? {
        return Err(Refused(changed.error));
      }
      if !queueUp {
        var failed := UpdateSystem(id, MarkFailedCall("JOB_ENQUEUE_FAILED", later));
        return Err(QueueDown);
      }
      var job := queue.Enqueue(newJobId, id, at);
      return Ok(changed.value);
    }

    /** Cancel the session first, its job second, a moment later and only if the queue is up. */
    method Cancel(userId: string, id: string, queueUp: bool, at: Time, later: Time)
      returns (r: Result<Session, ServiceError>)
      requires Valid()
      modifies this, repository, queue
      ensures Valid()
      ensures var owned := id in old(repository.sessions) && old(repository.sessions)[id].userId == userId;
              var changed := if owned then Change(old(repository.sessions)[id], CancelCall(at)) else Err(NotFound);
              if changed.Err? then
                && r == Err(Refused(changed.error)) && hub == old(hub)
                && repository.sessions == old(repository.sessions) && queue.jobs == old(queue.jobs)
              else
                && r == (if queueUp then Ok(changed.value) else Err(QueueDown))
                && repository.sessions == old(repository.sessions)[id := changed.value]
                && hub == PublishAll(old(hub), changed.value.id, changed.value.events)
                && queue.jobs
                   == if queueUp then JobModel.Cancel(old(queue.jobs), old(queue.session), id, later)
                      else old(queue.jobs)
    {
      var changed := UpdateOwned(userId, id, CancelCall(at));
      if changed.Err? {
        return Err(Refused(changed.error));
      }
      if !queueUp {
        return Err(QueueDown);
      }
      queue.CancelBySession(id, later);
      return Ok(changed.value);
    }

    method SubscribeEvents(userId: string, id: string, handle: nat, after: int) returns (r: Result<nat, SessionError>)
      requires Valid() && handle !in hub.channels
      modifies this
      ensures Valid()
      ensures id in repository.sessions && repository.sessions[id].userId == userId ==>
                r == Ok(handle) && hub == Subscribe(old(hub), handle, id, after, repository.sessions[id].events)
      ensures !(id in repository.sessions && repository.sessions[id].userId == userId) ==>
                r == Err(NotFound) && hub == old(hub)
    {
      var found := repository.Get(userId, id);
      if found.Err? {
        return Err(found.error);
      }
      var stream := Channel(id, after, [], after, true);
      PublishKeeps(stream, found.value.events);
      stream := PublishStream(stream, found.value.events);
      var streams := if id in hub.streams then hub.streams[id] else {};
      ghost var before := hub;
      hub := Hub(hub.channels[handle := stream], hub.streams[id := streams + {handle}]);
      assert forall s :: StreamsOf(hub, s) == if s == id then StreamsOf(before, s) + {handle} else StreamsOf(before, s);
      return Ok(handle);
    }

    /** The cancel function SubscribeEvents hands out; running it again changes nothing. */
    method CloseStream(handle: nat)
      requires Valid() && handle in hub.channels
      modifies this
      ensures Valid() && hub == Unsubscribe(old(hub), handle)
    {
      var id := hub.channels[handle].sessionId;
      var streams := if id in hub.streams then hub.streams[id] else {};
      ghost var before := hub;
      hub := Hub(hub.channels[handle := hub.channels[handle].(open := false)], hub.streams[id := streams - {handle}]);
      assert forall s :: StreamsOf(hub, s) == if s == id then StreamsOf(before, s) - {handle} else StreamsOf(before, s);
    }

    /** One tick of the poller, with the snapshot it read before taking the lock. */
    method PollTick(handle: nat, snapshot: seq<Event>)
      requires Valid() && handle in hub.channels
      modifies this
      ensures Valid() && hub == Poll(old(hub), handle, snapshot)
    {
      var id := hub.channels[handle].sessionId;
      if id in hub.streams && handle in hub.streams[id] {
        ghost var before := hub;
        PublishKeeps(hub.channels[handle], snapshot);
        var after := PublishStream(hub.channels[handle], snapshot);
        hub := hub.(channels := hub.channels[handle := after]);
        RegisteredAfter(before, hub.channels);
      }
    }
  }
}
