/**
 Sessions and mutation leases. A session is touched with every use and expires when it is
 not; an instance's lease belongs to one session until that session is closed or found expired.
 */
module Sessions {
  import opened Wrappers

  datatype Profile = ReadOnly | WorkspaceEdit | TrustedLocal

  /** PolicyEngine: which of the three permission profiles allow mutations. */
  predicate AllowsMutations(p: Profile) { p != ReadOnly }

  type SessionId = nat

  type InstanceId = nat

  datatype Target = Target(bufferId: nat, file: Option<nat>, projectRoot: Option<nat>)

  datatype Session = Session(instance: InstanceId, profile: Profile, target: Target, lastUsedAt: int)

  datatype SessionError = NotFound | Expired | MutationLocked

  datatype Result<+T> = Ok(value: T) | Err(error: SessionError)

  /** The two maps of the manager, and the next unused session id. */
  datatype Manager = Manager(sessions: map<SessionId, Session>, owners: map<InstanceId, SessionId>, next: SessionId)

  /** Every lease belongs to a session that exists and works on that instance; ids are not reused. */
  ghost predicate Consistent(m: Manager) {
    && (forall i | i in m.owners :: m.owners[i] in m.sessions && m.sessions[m.owners[i]].instance == i)
    && (forall id | id in m.sessions :: id < m.next)
  }

  function Opened(m: Manager, instance: InstanceId, profile: Profile, target: Target, now: int): Manager {
    m.(sessions := m.sessions[m.next := Session(instance, profile, target, now)], next := m.next + 1)
  }

  function Closed(m: Manager, id: SessionId): Manager {
    if id !in m.sessions then m
    else
      var i := m.sessions[id].instance;
      m.(sessions := m.sessions - {id}, owners := if i in m.owners && m.owners[i] == id then m.owners - {i} else m.owners)
  }

  predicate IsExpired(s: Session, now: int, ttl: int) {
    now - s.lastUsedAt > ttl
  }

  /** Use a session: refuse an unknown one, close an expired one, mark any other as used now. */
  function Touched(m: Manager, id: SessionId, now: int, ttl: int): (Manager, Result<Session>) {
    if id !in m.sessions then (m, Err(NotFound))
    else if IsExpired(m.sessions[id], now, ttl) then (Closed(m, id), Err(Expired))
    else
      var s := m.sessions[id].(lastUsedAt := now);
      (m.(sessions := m.sessions[id := s]), Ok(s))
  }

  function Retargeted(m: Manager, id: SessionId, target: Target, now: int, ttl: int): (Manager, Result<Session>) {
    var t := Touched(m, id, now, ttl);
    if t.1.Err? then t
    else
      var s := t.1.value.(target := target, lastUsedAt := now);
      (t.0.(sessions := t.0.sessions[id := s]), Ok(s))
  }

  /** Take the mutation lease of the session's instance, unless another session has it. */
  function Leased(m: Manager, id: SessionId, now: int, ttl: int): (Manager, Result<Session>) {
    var t := Touched(m, id, now, ttl);
    if t.1.Err? then t
    else
      var i := t.1.value.instance;
      if i in t.0.owners && t.0.owners[i] != id then (t.0, Err(MutationLocked))
      else (t.0.(owners := t.0.owners[i := id]), t.1)
  }

  /** All expired sessions closed. */
  function Pruned(m: Manager, now: int, ttl: int): Manager {
    var live := map id | id in m.sessions && !IsExpired(m.sessions[id], now, ttl) :: m.sessions[id];
    m.(sessions := live, owners := map i | i in m.owners && (m.owners[i] in live || m.owners[i] !in m.sessions) :: m.owners[i])
  }

  // ---------------------------------------------------------------- the manager

  class SessionManager {
    var sessions: map<SessionId, Session>
    var mutationOwners: map<InstanceId, SessionId>
    ghost var next: SessionId
    const ttlMs: int

    constructor (ttlMs: int)
      requires ttlMs >= 1
      ensures State() == Manager(map[], map[], 0) && this.ttlMs == ttlMs
    {
      sessions, mutationOwners, next := map[], map[], 0;
      this.ttlMs := ttlMs;
    }

    ghost function State(): Manager
      reads this
    {
      Manager(sessions, mutationOwners, next)
    }

    /** `id` is the new session's identifier, which nobody has used before. */
    method Open(id: SessionId, instance: InstanceId, profile: Profile, target: Target, now: int)
      requires id == next
      modifies this
      ensures State() == Opened(old(State()), instance, profile, target, now)
    {
      sessions := sessions[id := Session(instance, profile, target, now)];
      next := next + 1;
    }

    method Get(id: SessionId, now: int) returns (r: Result<Session>)
      modifies this
      ensures (State(), r) == Touched(old(State()), id, now, ttlMs)
    {
      if id !in sessions { return Err(NotFound); }
      var session := sessions[id];
      if now - session.lastUsedAt > ttlMs {
        var _ := Close(id);
        return Err(Expired);
      }
      session := session.(lastUsedAt := now);
      sessions := sessions[id := session];
      return Ok(session);
    }

    method UpdateTarget(id: SessionId, target: Target, now: int) returns (r: Result<Session>)
      modifies this
      ensures (State(), r) == Retargeted(old(State()), id, target, now, ttlMs)
    {
      r := Get(id, now);
      if r.Err? { return; }
      var session := r.value.(target := target, lastUsedAt := now);
      sessions := sessions[id := session];
      return Ok(session);
    }

    method AcquireMutation(id: SessionId, now: int) returns (r: Result<Session>)
      modifies this
      ensures (State(), r) == Leased(old(State()), id, now, ttlMs)
    {
      r := Get(id, now);
      if r.Err? { return; }
      var instance := r.value.instance;
      if instance in mutationOwners && mutationOwners[instance] != id { return Err(MutationLocked); }
      mutationOwners := mutationOwners[instance := id];
    }

    method Close(id: SessionId) returns (existed: bool)
      modifies this
      ensures State() == Closed(old(State()), id)
      ensures existed <==> id in old(sessions)
    {
      if id !in sessions { return false; }
      var instance := sessions[id].instance;
      if instance in mutationOwners && mutationOwners[instance] == id { mutationOwners := mutationOwners - {instance}; }
      sessions := sessions - {id};
      return true;
    }

    /** The private pruneExpired: visit every session and close the expired ones. */
    method PruneExpired(now: int)
      requires Consistent(State())
      modifies this
      ensures State() == Pruned(old(State()), now, ttlMs)
    {
      var todo := sessions.Keys;
      ghost var start := State();
      while todo != {}
        invariant todo <= sessions.Keys && Consistent(State()) && next == start.next
        invariant Visited(start, State(), todo, now, ttlMs)
        decreases todo
      {
        var id :| id in todo;
        ghost var before := State();
        if IsExpired(sessions[id], now, ttlMs) {
          var _ := Close(id);
        }
        VisitOne(start, before, todo, id, now, ttlMs);
        todo := todo - {id};
      }
      VisitedAll(start, State(), now, ttlMs);
    }
  }

  /** Halfway through pruning: the sessions in `todo` still to be looked at. */
  ghost predicate Visited(start: Manager, m: Manager, todo: set<SessionId>, now: int, ttl: int) {
    && (forall id :: id in m.sessions <==> id in start.sessions && (id in todo || !IsExpired(start.sessions[id], now, ttl)))
    && (forall id | id in m.sessions :: m.sessions[id] == start.sessions[id])
    && (forall i :: i in m.owners <==> i in start.owners && start.owners[i] in m.sessions)
    && (forall i | i in m.owners :: m.owners[i] == start.owners[i])
  }

  lemma {:induction false} VisitOne(start: Manager, m: Manager, todo: set<SessionId>, id: SessionId, now: int, ttl: int)
    requires Consistent(start) && Consistent(m) && Visited(start, m, todo, now, ttl) && id in todo && id in m.sessions
    ensures var after := if IsExpired(m.sessions[id], now, ttl) then Closed(m, id) else m;
            Visited(start, after, todo - {id}, now, ttl) && Consistent(after)
  {}

  lemma {:induction false} VisitedAll(start: Manager, m: Manager, now: int, ttl: int)
    requires Consistent(start) && Visited(start, m, {}, now, ttl) && m.next == start.next
    ensures m == Pruned(start, now, ttl)
  {
    var p := Pruned(start, now, ttl);
    assert m.sessions == p.sessions;
    assert m.owners == p.owners;
  }

  // ---------------------------------------------------------------- what every operation keeps

  datatype Operation =
    | Open(instance: InstanceId, profile: Profile, target: Target)
    | Get(id: SessionId)
    | UpdateTarget(id: SessionId, newTarget: Target)
    | Acquire(id: SessionId)
    | Close(id: SessionId)
    | Prune

  function Apply(m: Manager, op: Operation, now: int, ttl: int): Manager {
    match op
    case Open(i, p, t) => Opened(m, i, p, t, now)
    case Get(id) => Touched(m, id, now, ttl).0
    case UpdateTarget(id, t) => Retargeted(m, id, t, now, ttl).0
    case Acquire(id) => Leased(m, id, now, ttl).0
    case Close(id) => Closed(m, id)
    case Prune => Pruned(m, now, ttl)
  }

  /**
   From `m` to `n`: leases stay with live sessions of their instance, and with their owner for
   as long as the owner lives; a session keeps its instance and profile; new sessions have new ids.
   */
  ghost predicate Evolves(m: Manager, n: Manager) {
    && Consistent(n) && n.next >= m.next
    && (forall i | i in m.owners && m.owners[i] in n.sessions :: i in n.owners && n.owners[i] == m.owners[i])
    && (forall id | id in m.sessions && id in n.sessions ::
          n.sessions[id].instance == m.sessions[id].instance && n.sessions[id].profile == m.sessions[id].profile)
    && (forall id | id in n.sessions && id !in m.sessions :: id >= m.next)
  }

  lemma {:induction false} EvolvesFurther(m: Manager, n: Manager, k: Manager)
    requires Consistent(m) && Evolves(m, n) && Evolves(n, k)
    ensures Evolves(m, k)
  {
    forall i | i in m.owners && m.owners[i] in k.sessions ensures i in k.owners && k.owners[i] == m.owners[i] {
      assert m.owners[i] < m.next;
      assert m.owners[i] in n.sessions;
    }
  }

  lemma {:induction false} TouchKeeps(m: Manager, id: SessionId, now: int, ttl: int)
    requires Consistent(m)
    ensures Evolves(m, Touched(m, id, now, ttl).0) && Touched(m, id, now, ttl).0.owners.Keys <= m.owners.Keys
  {}

  lemma {:induction false} RetargetKeeps(m: Manager, id: SessionId, target: Target, now: int, ttl: int)
    requires Consistent(m)
    ensures Evolves(m, Retargeted(m, id, target, now, ttl).0)
  {
    var t := Touched(m, id, now, ttl);
    TouchKeeps(m, id, now, ttl);
    if t.1.Ok? {
      assert Evolves(t.0, Retargeted(m, id, target, now, ttl).0);
      EvolvesFurther(m, t.0, Retargeted(m, id, target, now, ttl).0);
    }
  }

  ghost predicate Grants(m: Manager, n: Manager, i: InstanceId, id: SessionId) {
    (i in m.owners ==> m.owners[i] == id) && i in n.owners && n.owners[i] == id
  }

  /** A lease is taken only when it is free or already the session's own. */
  lemma {:induction false} LeaseKeeps(m: Manager, id: SessionId, now: int, ttl: int)
    requires Consistent(m)
    ensures var l := Leased(m, id, now, ttl);
            Evolves(m, l.0) && (l.1.Ok? ==> id in m.sessions && Grants(m, l.0, m.sessions[id].instance, id))
  {
    var t, l := Touched(m, id, now, ttl), Leased(m, id, now, ttl);
    TouchKeeps(m, id, now, ttl);
    if l.1.Ok? {
      assert Evolves(t.0, l.0);
      EvolvesFurther(m, t.0, l.0);
    }
  }

  lemma {:induction false} CloseKeeps(m: Manager, id: SessionId)
    requires Consistent(m)
    ensures Evolves(m, Closed(m, id)) && id !in Closed(m, id).sessions
  {}

  lemma {:induction false} PruneKeeps(m: Manager, now: int, ttl: int)
    requires Consistent(m)
    ensures Evolves(m, Pruned(m, now, ttl))
  {}

  /** What every operation keeps. */
  lemma {:induction false} OperationKeeps(m: Manager, op: Operation, now: int, ttl: int)
    requires Consistent(m)
    ensures Evolves(m, Apply(m, op, now, ttl))
  {
    match op
    case Open(i, p, t) =>
    case Get(id) => TouchKeeps(m, id, now, ttl);
    case UpdateTarget(id, t) => RetargetKeeps(m, id, t, now, ttl);
    case Acquire(id) => LeaseKeeps(m, id, now, ttl);
    case Close(id) => CloseKeeps(m, id);
    case Prune => PruneKeeps(m, now, ttl);
  }
}
