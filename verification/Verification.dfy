/**
 Verification tickets: a bounded set of evaluations that may be repeated after a failure, and
 the conditions under which the router repeats one.
 */
module Verification {
  import opened CodeUnits
  import opened ExpiringMap
  import opened Wrappers

  type TicketId = nat

  datatype Risk = Low | High | Unknown

  /** A source hash and position as the editor reports them; an empty hash counts as none. */
  datatype Source = Source(sha: Text, start: Option<int>)

  datatype Attempt = Attempt(completed: bool, source: Source)

  datatype Terms = Terms(session: nat, maxAttempts: nat, risk: Risk, allowRisky: bool)

  datatype Ticket = Ticket(terms: Terms, attempts: seq<Attempt>)

  type Tickets = seq<Entry<TicketId, Ticket>>

  datatype TicketError = UnknownTicket | OtherSession

  datatype Fetched = Fetched(ticket: Ticket) | Refused(error: TicketError)

  // ---------------------------------------------------------------- the manager

  function Pruned(ts: Tickets, now: int, maxTickets: nat): Tickets {
    Trim(Unexpired(ts, now), maxTickets)
  }

  function Lookup(ts: Tickets, id: TicketId, session: nat): Fetched {
    var found := Find(ts, id);
    if found.None? then Refused(UnknownTicket)
    else if found.value.value.terms.session != session then Refused(OtherSession)
    else Fetched(found.value.value)
  }

  /** The entry of `id` with another ticket and expiry, in its old place. */
  function Replaced(ts: Tickets, id: TicketId, ticket: Ticket, expiresAt: int): Tickets {
    if ts == [] then []
    else if ts[0].key == id then [Entry(id, ticket, expiresAt)] + ts[1..]
    else [ts[0]] + Replaced(ts[1..], id, ticket, expiresAt)
  }

  function Created(ts: Tickets, id: TicketId, ticket: Ticket, now: int, ttl: int, maxTickets: nat): Tickets {
    Pruned(ts, now, maxTickets) + [Entry(id, ticket, now + ttl)]
  }

  /** Add an attempt to a ticket that is there; its time starts again. */
  function AppendedTo(ts: Tickets, id: TicketId, session: nat, attempt: Attempt, expiresAt: int): (Tickets, Fetched) {
    match Lookup(ts, id, session)
    case Refused(e) => (ts, Refused(e))
    case Fetched(t) =>
      var longer := t.(attempts := t.attempts + [attempt]);
      (Replaced(ts, id, longer, expiresAt), Fetched(longer))
  }

  function Appended(ts: Tickets, id: TicketId, session: nat, attempt: Attempt, now: int, ttl: int, maxTickets: nat): (Tickets, Fetched) {
    AppendedTo(Pruned(ts, now, maxTickets), id, session, attempt, now + ttl)
  }

  function ClosedTicket(ts: Tickets, id: TicketId, session: nat, now: int, maxTickets: nat): Tickets {
    var kept := Pruned(ts, now, maxTickets);
    if Lookup(kept, id, session).Fetched? then Remove(kept, id) else kept
  }

  class VerificationTicketManager {
    var tickets: Tickets
    const ttlMs: int
    const maxTickets: nat

    constructor (ttlMs: int, maxTickets: nat)
      ensures tickets == [] && this.ttlMs == ttlMs && this.maxTickets == maxTickets
    {
      tickets := [];
      this.ttlMs, this.maxTickets := ttlMs, maxTickets;
    }

    method Prune(now: int)
      modifies this
      ensures tickets == Pruned(old(tickets), now, maxTickets)
    {
      tickets := DropExpired(tickets, now);
      tickets := MakeRoom(tickets, maxTickets);
    }

    /** `id` is a new random identifier. */
    method Create(id: TicketId, ticket: Ticket, now: int)
      modifies this
      ensures tickets == Created(old(tickets), id, ticket, now, ttlMs, maxTickets)
    {
      Prune(now);
      tickets := tickets + [Entry(id, ticket, now + ttlMs)];
    }

    method Get(id: TicketId, session: nat, now: int) returns (r: Fetched)
      modifies this
      ensures tickets == Pruned(old(tickets), now, maxTickets) && r == Lookup(tickets, id, session)
    {
      Prune(now);
      var found := Find(tickets, id);
      if found.None? { return Refused(UnknownTicket); }
      if found.value.value.terms.session != session { return Refused(OtherSession); }
      return Fetched(found.value.value);
    }

    method Append(id: TicketId, session: nat, attempt: Attempt, now: int) returns (r: Fetched)
      modifies this
      ensures (tickets, r) == Appended(old(tickets), id, session, attempt, now, ttlMs, maxTickets)
    {
      r := Get(id, session, now);
      if r.Refused? { return; }
      var longer := r.ticket.(attempts := r.ticket.attempts + [attempt]);
      tickets := Replaced(tickets, id, longer, now + ttlMs);
      return Fetched(longer);
    }

    method Close(id: TicketId, session: nat, now: int)
      modifies this
      ensures tickets == ClosedTicket(old(tickets), id, session, now, maxTickets)
    {
      var r := Get(id, session, now);
      if r.Fetched? { tickets := Remove(tickets, id); }
    }
  }

  /**
   Looking a ticket up evicts the oldest ones when the map is full: an unexpired ticket is found
   exactly when it is followed by fewer than `maxTickets` - 1 unexpired ones.
   */
  lemma {:induction false} FoundUnlessEvicted(ts: Tickets, i: nat, now: int, maxTickets: nat)
    requires Distinct(Unexpired(ts, now)) && i < |Unexpired(ts, now)| && maxTickets > 0
    ensures var u := Unexpired(ts, now);
            Find(Pruned(ts, now, maxTickets), u[i].key) == if |u| - i < maxTickets then Some(u[i]) else None
  {
    var u := Unexpired(ts, now);
    Trimmed(u, maxTickets);
    FoundInRest(u, i, if |u| < maxTickets then 0 else |u| + 1 - maxTickets);
  }

  lemma {:induction false} FoundInRest(u: Tickets, i: nat, d: nat)
    requires Distinct(u) && i < |u| && d <= |u|
    ensures Find(u[d..], u[i].key) == if d <= i then Some(u[i]) else None
    decreases d
  {
    if d == 0 {
      assert u[0..] == u;
      FoundAt(u, i);
    } else {
      assert u[1..][d - 1..] == u[d..];
      if i > 0 {
        FoundInRest(u[1..], i - 1, d - 1);
      } else {
        assert u[1..] == u[1..d] + u[d..];
        KeysConcat(u[1..d], u[d..]);
        FindNothing(u[d..], u[0].key);
      }
    }
  }

  lemma {:induction false} FoundAt(u: Tickets, i: nat)
    requires Distinct(u) && i < |u|
    ensures Find(u, u[i].key) == Some(u[i])
  {
    if i > 0 {
      FoundAt(u[1..], i - 1);
      KeyIn(u[1..], i - 1);
    }
  }

  lemma {:induction false} FindNothing<K, V>(es: seq<Entry<K, V>>, k: K)
    requires k !in Keys(es)
    ensures Find(es, k).None?
  {
    if es != [] { FindNothing(es[1..], k); }
  }

  // ---------------------------------------------------------------- when an evaluation is repeated

  datatype Stop =
    | AlreadyCompleted | MaxAttempts | SideEffectRisk
    | FingerprintUnavailable | LocatorUnavailable | TargetChanged | SourceUnchanged

  /** What is asked of the ticket before the editor is asked for its source. */
  function StopBefore(t: Ticket): Option<Stop>
    requires t.attempts != []
  {
    var last := t.attempts[|t.attempts| - 1];
    if last.completed then Some(AlreadyCompleted)
    else if |t.attempts| >= t.terms.maxAttempts then Some(MaxAttempts)
    else if t.terms.risk != Low && !t.terms.allowRisky then Some(SideEffectRisk)
    else None
  }

  function StopAfter(t: Ticket, seen: Source): Option<Stop>
    requires t.attempts != []
  {
    var before := t.attempts[|t.attempts| - 1].source;
    if seen.sha == [] || before.sha == [] then Some(FingerprintUnavailable)
    else if seen.start.None? || before.start.None? then Some(LocatorUnavailable)
    else if seen.start != before.start then Some(TargetChanged)
    else if seen.sha == before.sha then Some(SourceUnchanged)
    else None
  }

  /** A failed attempt may be repeated: attempts left, risk approved, and another source at the same place. */
  ghost predicate MayRepeat(terms: Terms, attempts: seq<Attempt>, seen: Source) {
    && 0 < |attempts| < terms.maxAttempts
    && (terms.risk == Low || terms.allowRisky)
    && var last := attempts[|attempts| - 1];
       && !last.completed && seen.start.Some? && seen.start == last.source.start
       && seen.sha != last.source.sha && seen.sha != [] && last.source.sha != []
  }

  /** The router's checks let exactly the allowed repetitions through. */
  lemma {:induction false} StopsUnlessAllowed(t: Ticket, seen: Source)
    requires t.attempts != []
    ensures StopBefore(t).None? && StopAfter(t, seen).None? <==> MayRepeat(t.terms, t.attempts, seen)
  {}

  /** The reasons that need no look at the source, the earlier one first. */
  ghost predicate Before(t: Ticket, why: Stop)
    requires t.attempts != []
  {
    var done, spent := t.attempts[|t.attempts| - 1].completed, |t.attempts| >= t.terms.maxAttempts;
    || (why == AlreadyCompleted && done)
    || (why == MaxAttempts && !done && spent)
    || (why == SideEffectRisk && !done && !spent && t.terms.risk != Low && !t.terms.allowRisky)
  }

  /** The reasons found in the source: unknown, somewhere else, or still the same at the same place. */
  ghost predicate After(before: Source, seen: Source, why: Stop) {
    var sums, places := before.sha != [] && seen.sha != [], before.start.Some? && seen.start.Some?;
    || (why == FingerprintUnavailable && !sums)
    || (why == LocatorUnavailable && sums && !places)
    || (why == TargetChanged && sums && places && seen.start != before.start)
    || (why == SourceUnchanged && sums && places && seen.start == before.start && seen.sha == before.sha)
  }

  /** Why a repetition was refused, if it was. */
  ghost predicate Because(t: Ticket, seen: Option<Source>, stop: Option<Stop>)
    requires t.attempts != []
  {
    var before := t.attempts[|t.attempts| - 1].source;
    match stop
    case Some(why) => Before(t, why) || ((forall w :: !Before(t, w)) && seen.Some? && After(before, seen.value, why))
    case None => (forall why :: !Before(t, why)) && (seen.Some? ==> forall why :: !After(before, seen.value, why))
  }

  /** Without a ticket there is no reason to give. */
  ghost predicate Reasoned(found: Fetched, seen: Option<Source>, stop: Option<Stop>) {
    if found.Refused? then stop == None else found.ticket.attempts != [] && Because(found.ticket, seen, stop)
  }

  /** There is one answer. */
  lemma {:induction false} OneReason(t: Ticket, seen: Option<Source>, a: Option<Stop>, b: Option<Stop>)
    requires t.attempts != [] && Because(t, seen, a) && Because(t, seen, b)
    ensures a == b
  {
    if a.Some? { assert Before(t, a.value) || After(t.attempts[|t.attempts| - 1].source, seen.value, a.value); }
  }

  lemma {:induction false} StopsMean(t: Ticket, seen: Option<Source>)
    requires t.attempts != []
    ensures Because(t, seen, if StopBefore(t).Some? then StopBefore(t) else if seen.None? then None else StopAfter(t, seen.value))
  {}

  /** An evaluation that was asked for after seeing `seen`; its answer may be lost. */
  datatype Evaluation = Evaluation(seen: Source, answer: Option<Attempt>)

  /** All that was ever evaluated under a ticket. */
  datatype Record = Record(terms: Terms, first: Attempt, repeats: seq<Evaluation>)

  function AnsweredBy(first: Attempt, repeats: seq<Evaluation>): (attempts: seq<Attempt>)
    ensures attempts != []
  {
    if repeats == [] then [first]
    else
      var last := repeats[|repeats| - 1].answer;
      AnsweredBy(first, repeats[..|repeats| - 1]) + if last.Some? then [last.value] else []
  }

  /** Every repetition was allowed by the attempts answered before it. */
  ghost predicate Guarded(r: Record) {
    forall k | 0 <= k < |r.repeats| :: MayRepeat(r.terms, AnsweredBy(r.first, r.repeats[..k]), r.repeats[k].seen)
  }

  /** The manager's tickets and, for every ticket there ever was, its record. */
  datatype State = State(tickets: Tickets, records: map<TicketId, Record>)

  ghost predicate Sound(s: State) {
    && Distinct(s.tickets)
    && (forall id | id in s.records :: Guarded(s.records[id]))
    && AllRecorded(s.tickets, s.records)
  }

  ghost predicate AllRecorded(ts: Tickets, records: map<TicketId, Record>) {
    forall i | 0 <= i < |ts| :: Recorded(ts[i], records)
  }

  ghost predicate Recorded(e: Entry<TicketId, Ticket>, records: map<TicketId, Record>) {
    e.key in records && e.value == Ticket(records[e.key].terms, AnsweredBy(records[e.key].first, records[e.key].repeats))
  }

  datatype Use =
    | Start(id: TicketId, terms: Terms, attempt: Attempt)
    | Look(id: TicketId, session: nat)
    | CloseTicket(id: TicketId, session: nat)
    | Rerun(id: TicketId, session: nat, seen: Option<Source>, answer: Option<Attempt>, later: int)

  /** The router's verification actions; `seen` and `answer` are what the editor says, when it does. */
  function Used(s: State, u: Use, now: int, ttl: int, maxTickets: nat): State {
    match u
    case Start(id, terms, attempt) =>
      State(Created(s.tickets, id, Ticket(terms, [attempt]), now, ttl, maxTickets), s.records[id := Record(terms, attempt, [])])
    case Look(_, _) => s.(tickets := Pruned(s.tickets, now, maxTickets))
    case CloseTicket(id, session) => s.(tickets := ClosedTicket(s.tickets, id, session, now, maxTickets))
    case Rerun(id, session, seen, answer, later) =>
      var kept := Pruned(s.tickets, now, maxTickets);
      Repeated(s.(tickets := kept), id, session, seen, answer, Pruned(kept, later, maxTickets), later + ttl)
  }

  /** Repeat an evaluation if it may be; `left` are the tickets when its answer is there. */
  function Repeated(s: State, id: TicketId, session: nat, seen: Option<Source>, answer: Option<Attempt>, left: Tickets,
                    expiresAt: int): State {
    var found := Lookup(s.tickets, id, session);
    if found.Refused? || found.ticket.attempts == [] || id !in s.records || StopBefore(found.ticket).Some? || seen.None?
       || StopAfter(found.ticket, seen.value).Some?
    then s
    else
      var r := s.records[id];
      State(if answer.Some? then AppendedTo(left, id, session, answer.value, expiresAt).0 else s.tickets,
            s.records[id := r.(repeats := r.repeats + [Evaluation(seen.value, answer)])])
  }

  /** A ticket id is random, so it is not used twice. */
  predicate IsNew(s: State, u: Use) {
    u.Start? ==> u.id !in s.records
  }

  ghost predicate Fetchable(s: State, id: TicketId, session: nat, now: int, maxTickets: nat) {
    Lookup(Pruned(s.tickets, now, maxTickets), id, session).Fetched?
  }

  ghost predicate MayRepeatRecord(records: map<TicketId, Record>, id: TicketId, seen: Source) {
    id in records && MayRepeat(records[id].terms, AnsweredBy(records[id].first, records[id].repeats), seen)
  }

  class VerificationTool {
    const tickets: VerificationTicketManager
    ghost var records: map<TicketId, Record>

    constructor (tickets: VerificationTicketManager)
      ensures this.tickets == tickets && records == map[]
    {
      this.tickets, records := tickets, map[];
    }

    ghost function CurrentState(): State
      reads this, tickets
    {
      State(tickets.tickets, records)
    }

    method StartVerification(id: TicketId, terms: Terms, attempt: Attempt, now: int)
      modifies this, tickets
      ensures CurrentState() == Used(old(CurrentState()), Start(id, terms, attempt), now, tickets.ttlMs, tickets.maxTickets)
    {
      tickets.Create(id, Ticket(terms, [attempt]), now);
      records := records[id := Record(terms, attempt, [])];
    }

    /** The router's checks of a ticket, and of the source when there is a look at it. */
    static method Judge(t: Ticket, seen: Option<Source>) returns (stop: Option<Stop>)
      requires t.attempts != []
      ensures Because(t, seen, stop)
      ensures StopBefore(t).Some? || (seen.Some? && StopAfter(t, seen.value).Some?) <==> stop.Some?
      ensures seen.Some? ==> (stop.None? <==> MayRepeat(t.terms, t.attempts, seen.value))
    {
      StopsMean(t, seen);
      if seen.Some? { StopsUnlessAllowed(t, seen.value); }
      stop := StopBefore(t);
      if stop.None? && seen.Some? { stop := StopAfter(t, seen.value); }
    }

    /** Ask for the evaluation, which is on record from then on; its answer may be lost. */
    method Evaluate(id: TicketId, session: nat, seen: Option<Source>, answer: Option<Attempt>, later: int)
      requires Lookup(tickets.tickets, id, session).Fetched? && id in records && seen.Some?
      requires var t := Lookup(tickets.tickets, id, session).ticket;
               t.attempts != [] && StopBefore(t).None? && StopAfter(t, seen.value).None?
      modifies this, tickets
      ensures CurrentState() == Repeated(old(CurrentState()), id, session, seen, answer,
                                         Pruned(old(tickets.tickets), later, tickets.maxTickets), later + tickets.ttlMs)
    {
      records := records[id := records[id].(repeats := records[id].repeats + [Evaluation(seen.value, answer)])];
      if answer.Some? { var _ := tickets.Append(id, session, answer.value, later); }
    }

    /** Repeat an evaluation, or say why not. */
    method RepeatVerification(id: TicketId, session: nat, seen: Option<Source>, answer: Option<Attempt>, now: int, later: int)
      returns (evaluated: bool, stop: Option<Stop>)
      requires Sound(CurrentState()) && tickets.maxTickets > 0
      modifies this, tickets
      ensures CurrentState() == Used(old(CurrentState()), Rerun(id, session, seen, answer, later), now, tickets.ttlMs, tickets.maxTickets)
      ensures evaluated <==> Fetchable(old(CurrentState()), id, session, now, tickets.maxTickets) && seen.Some?
                             && MayRepeatRecord(old(records), id, seen.value)
      ensures !evaluated ==> records == old(records)
      ensures Reasoned(Lookup(Pruned(old(tickets.tickets), now, tickets.maxTickets), id, session), seen, stop)
    {
      evaluated, stop := false, None;
      ghost var s := CurrentState();
      var r := tickets.Get(id, session, now);
      if r.Refused? { return; }
      TicketIsRecorded(s, id, session, now, tickets.maxTickets, r.ticket);
      stop := Judge(r.ticket, seen);
      if stop.Some? || seen.None? { return; }
      evaluated := true;
      Evaluate(id, session, seen, answer, later);
    }
  }

  // ---------------------------------------------------------------- what every use keeps

  lemma {:induction false} RestOf(u: Tickets, d: nat, records: map<TicketId, Record>)
    requires d <= |u| && Distinct(u) && AllRecorded(u, records)
    ensures Distinct(u[d..]) && Keys(u[d..]) <= Keys(u) && AllRecorded(u[d..], records)
  {
    DistinctTail(u, d);
    assert u == u[..d] + u[d..];
    KeysConcat(u[..d], u[d..]);
  }

  lemma {:induction false} PruneKeeps(ts: Tickets, records: map<TicketId, Record>, now: int, maxTickets: nat)
    requires Distinct(ts) && AllRecorded(ts, records) && maxTickets > 0
    ensures Distinct(Pruned(ts, now, maxTickets)) && AllRecorded(Pruned(ts, now, maxTickets), records)
    ensures Keys(Pruned(ts, now, maxTickets)) <= Keys(ts)
  {
    var u := Unexpired(ts, now);
    UnexpiredSome(ts, now);
    forall i | 0 <= i < |u| ensures Recorded(u[i], records) { assert u[i] in ts; }
    Trimmed(u, maxTickets);
    RestOf(u, if |u| < maxTickets then 0 else |u| + 1 - maxTickets, records);
  }

  lemma {:induction false} PruneKeepsSound(s: State, now: int, maxTickets: nat)
    requires Sound(s) && maxTickets > 0
    ensures Sound(s.(tickets := Pruned(s.tickets, now, maxTickets)))
  {
    PruneKeeps(s.tickets, s.records, now, maxTickets);
  }

  /** What a ticket says, its record says too. */
  lemma {:induction false} TicketIsRecorded(s: State, id: TicketId, session: nat, now: int, maxTickets: nat, t: Ticket)
    requires Sound(s) && maxTickets > 0 && Lookup(Pruned(s.tickets, now, maxTickets), id, session) == Fetched(t)
    ensures id in s.records && t.attempts != []
    ensures forall seen :: MayRepeatRecord(s.records, id, seen) <==> MayRepeat(t.terms, t.attempts, seen)
  {
    PruneKeepsSound(s, now, maxTickets);
    FoundRecorded(Pruned(s.tickets, now, maxTickets), s.records, id);
  }

  lemma {:induction false} FoundRecorded(ts: Tickets, records: map<TicketId, Record>, id: TicketId)
    requires AllRecorded(ts, records) && Find(ts, id).Some?
    ensures Recorded(Find(ts, id).value, records) && Find(ts, id).value.key == id
  {
    if ts[0].key == id {
      assert Recorded(ts[0], records);
    } else {
      assert AllRecorded(ts[1..], records) by { assert forall i | 0 <= i < |ts[1..]| :: ts[1..][i] == ts[i + 1]; }
      FoundRecorded(ts[1..], records, id);
    }
  }

  lemma {:induction false} ReplacedKeys(ts: Tickets, id: TicketId, t: Ticket, expiresAt: int)
    ensures Keys(Replaced(ts, id, t, expiresAt)) == Keys(ts) && (Distinct(ts) ==> Distinct(Replaced(ts, id, t, expiresAt)))
  {
    if ts != [] && ts[0].key != id {
      ReplacedKeys(ts[1..], id, t, expiresAt);
      assert ([ts[0]] + Replaced(ts[1..], id, t, expiresAt))[1..] == Replaced(ts[1..], id, t, expiresAt);
    } else if ts != [] {
      assert ([Entry(id, t, expiresAt)] + ts[1..])[1..] == ts[1..];
    }
  }

  /** Entries under other keys do not depend on the record of `id`. */
  lemma {:induction false} OthersRecorded(ts: Tickets, records: map<TicketId, Record>, id: TicketId, r: Record)
    requires AllRecorded(ts, records) && id !in Keys(ts)
    ensures AllRecorded(ts, records[id := r])
  {
    forall i | 0 <= i < |ts| ensures Recorded(ts[i], records[id := r]) {
      KeyIn(ts, i);
      assert Recorded(ts[i], records);
    }
  }

  lemma {:induction false} ReplacedRecorded(ts: Tickets, records: map<TicketId, Record>, id: TicketId, r: Record, expiresAt: int)
    requires AllRecorded(ts, records) && Distinct(ts) && id in Keys(ts)
    ensures AllRecorded(Replaced(ts, id, Ticket(r.terms, AnsweredBy(r.first, r.repeats)), expiresAt), records[id := r])
  {
    var t := Ticket(r.terms, AnsweredBy(r.first, r.repeats));
    var after := records[id := r];
    assert AllRecorded(ts[1..], records) by { assert forall i | 0 <= i < |ts[1..]| :: ts[1..][i] == ts[i + 1]; }
    if ts[0].key == id {
      OthersRecorded(ts[1..], records, id, r);
      AllRecordedCons(Entry(id, t, expiresAt), ts[1..], after);
    } else {
      ReplacedRecorded(ts[1..], records, id, r, expiresAt);
      assert Recorded(ts[0], records);
      AllRecordedCons(ts[0], Replaced(ts[1..], id, t, expiresAt), after);
    }
  }

  lemma {:induction false} AllRecordedCons(e: Entry<TicketId, Ticket>, ts: Tickets, records: map<TicketId, Record>)
    requires Recorded(e, records) && AllRecorded(ts, records)
    ensures AllRecorded([e] + ts, records)
  {}

  lemma {:induction false} AllRecordedConcat(a: Tickets, b: Tickets, records: map<TicketId, Record>)
    requires AllRecorded(a, records) && AllRecorded(b, records)
    ensures AllRecorded(a + b, records)
  {}

  lemma {:induction false} RemovedRecorded(ts: Tickets, records: map<TicketId, Record>, id: TicketId)
    requires AllRecorded(ts, records)
    ensures AllRecorded(Remove(ts, id), records)
  {
    if ts != [] {
      assert AllRecorded(ts[1..], records) by { assert forall i | 0 <= i < |ts[1..]| :: ts[1..][i] == ts[i + 1]; }
      RemovedRecorded(ts[1..], records, id);
      assert Recorded(ts[0], records);
      AllRecordedCons(ts[0], Remove(ts[1..], id), records);
    }
  }

  lemma {:induction false} KeysRecorded(ts: Tickets, records: map<TicketId, Record>)
    requires AllRecorded(ts, records)
    ensures forall id | id in Keys(ts) :: id in records
  {
    if ts != [] {
      assert Recorded(ts[0], records);
      assert AllRecorded(ts[1..], records) by { assert forall i | 0 <= i < |ts[1..]| :: ts[1..][i] == ts[i + 1]; }
      KeysRecorded(ts[1..], records);
    }
  }

  lemma {:induction false} FoundKey(ts: Tickets, id: TicketId)
    ensures Find(ts, id).Some? <==> id in Keys(ts)
  {
    if ts != [] { FoundKey(ts[1..], id); }
  }

  /** Repeating under the guard keeps the record guarded. */
  lemma {:induction false} RepeatGuarded(r: Record, seen: Source, answer: Option<Attempt>)
    requires Guarded(r) && MayRepeat(r.terms, AnsweredBy(r.first, r.repeats), seen)
    ensures Guarded(r.(repeats := r.repeats + [Evaluation(seen, answer)]))
    ensures AnsweredBy(r.first, r.repeats + [Evaluation(seen, answer)])
         == AnsweredBy(r.first, r.repeats) + if answer.Some? then [answer.value] else []
  {
    var more := r.repeats + [Evaluation(seen, answer)];
    assert more[..|r.repeats|] == r.repeats;
    forall k | 0 <= k < |more| ensures MayRepeat(r.terms, AnsweredBy(r.first, more[..k]), more[k].seen) {
      if k < |r.repeats| { assert more[..k] == r.repeats[..k]; }
    }
  }

  lemma {:induction false} StartKeepsSound(s: State, id: TicketId, terms: Terms, attempt: Attempt, now: int, ttl: int, maxTickets: nat)
    requires Sound(s) && maxTickets > 0 && id !in s.records
    ensures Sound(Used(s, Start(id, terms, attempt), now, ttl, maxTickets))
  {
    PruneKeeps(s.tickets, s.records, now, maxTickets);
    var kept, r := Pruned(s.tickets, now, maxTickets), Record(terms, attempt, []);
    KeysRecorded(kept, s.records);
    OthersRecorded(kept, s.records, id, r);
    DistinctAppend(kept, Entry(id, Ticket(terms, [attempt]), now + ttl));
    AllRecordedConcat(kept, [Entry(id, Ticket(terms, [attempt]), now + ttl)], s.records[id := r]);
  }

  lemma {:induction false} SoundWith(s: State, ts: Tickets, id: TicketId, r: Record)
    requires Sound(s) && Guarded(r) && Distinct(ts) && AllRecorded(ts, s.records[id := r])
    ensures Sound(State(ts, s.records[id := r]))
  {}

  /** The ticket after a repetition whose record is now `r`; `kept` is what is left when the answer is added. */
  lemma {:induction false} RepeatKeepsSound(s: State, id: TicketId, seen: Source, answer: Option<Attempt>, session: nat, kept: Tickets,
                                            expiresAt: int, r: Record)
    requires Sound(s) && MayRepeatRecord(s.records, id, seen) && s.records[id].terms.session == session
    requires Distinct(kept) && AllRecorded(kept, s.records)
    requires r == s.records[id].(repeats := s.records[id].repeats + [Evaluation(seen, answer)])
    ensures Sound(State(if answer.Some? then AppendedTo(kept, id, session, answer.value, expiresAt).0 else s.tickets, s.records[id := r]))
  {
    RepeatGuarded(s.records[id], seen, answer);
    if answer.None? {
      StillRecorded(s.tickets, s.records, id, r);
      SoundWith(s, s.tickets, id, r);
    } else {
      AppendKeepsRecorded(kept, s.records, id, r, answer.value, session, expiresAt);
      SoundWith(s, AppendedTo(kept, id, session, answer.value, expiresAt).0, id, r);
    }
  }

  /** The answer is added to the ticket, unless the ticket has expired meanwhile. */
  lemma {:induction false} AppendKeepsRecorded(ts: Tickets, records: map<TicketId, Record>, id: TicketId, r: Record, attempt: Attempt,
                                               session: nat, expiresAt: int)
    requires Distinct(ts) && AllRecorded(ts, records) && id in records && records[id].terms == r.terms && r.terms.session == session
    requires AnsweredBy(r.first, r.repeats) == AnsweredBy(records[id].first, records[id].repeats) + [attempt]
    ensures var after := AppendedTo(ts, id, session, attempt, expiresAt).0; Distinct(after) && AllRecorded(after, records[id := r])
  {
    FoundKey(ts, id);
    if Find(ts, id).None? {
      OthersRecorded(ts, records, id, r);
    } else {
      FoundRecorded(ts, records, id);
      ReplacedKeys(ts, id, Ticket(r.terms, AnsweredBy(r.first, r.repeats)), expiresAt);
      ReplacedRecorded(ts, records, id, r, expiresAt);
    }
  }

  lemma {:induction false} StillRecorded(ts: Tickets, records: map<TicketId, Record>, id: TicketId, r: Record)
    requires AllRecorded(ts, records) && id in records
    requires r.terms == records[id].terms && AnsweredBy(r.first, r.repeats) == AnsweredBy(records[id].first, records[id].repeats)
    ensures AllRecorded(ts, records[id := r])
  {
    forall i | 0 <= i < |ts| ensures Recorded(ts[i], records[id := r]) { assert Recorded(ts[i], records); }
  }

  lemma {:induction false} CloseKeepsSound(s: State, id: TicketId, session: nat, now: int, maxTickets: nat)
    requires Sound(s) && maxTickets > 0
    ensures Sound(s.(tickets := ClosedTicket(s.tickets, id, session, now, maxTickets)))
  {
    PruneKeepsSound(s, now, maxTickets);
    var kept := Pruned(s.tickets, now, maxTickets);
    Removed(kept, id);
    RemovedRecorded(kept, s.records, id);
  }

  /** The tickets a rerun starts from, and those that are left when the answer is there. */
  lemma {:induction false} RerunParts(s: State, later: int, now: int, maxTickets: nat) returns (kept: State, left: Tickets)
    requires Sound(s) && maxTickets > 0
    ensures Sound(kept) && kept == s.(tickets := Pruned(s.tickets, now, maxTickets))
    ensures Distinct(left) && AllRecorded(left, kept.records) && left == Pruned(kept.tickets, later, maxTickets)
  {
    kept := s.(tickets := Pruned(s.tickets, now, maxTickets));
    left := Pruned(kept.tickets, later, maxTickets);
    PruneKeepsSound(s, now, maxTickets);
    PruneKeeps(kept.tickets, s.records, later, maxTickets);
  }

  lemma {:induction false} RerunIsRepeated(s: State, id: TicketId, session: nat, seen: Option<Source>, answer: Option<Attempt>,
                                           later: int, now: int, ttl: int, maxTickets: nat) returns (after: State)
    ensures after == Used(s, Rerun(id, session, seen, answer, later), now, ttl, maxTickets)
    ensures var kept := s.(tickets := Pruned(s.tickets, now, maxTickets));
            after == Repeated(kept, id, session, seen, answer, Pruned(kept.tickets, later, maxTickets), later + ttl)
  {
    after := Used(s, Rerun(id, session, seen, answer, later), now, ttl, maxTickets);
  }

  lemma {:induction false} RerunKeepsSound(s: State, id: TicketId, session: nat, seen: Option<Source>, answer: Option<Attempt>, later: int,
                                           now: int, ttl: int, maxTickets: nat) returns (after: State)
    requires Sound(s) && maxTickets > 0
    ensures after == Used(s, Rerun(id, session, seen, answer, later), now, ttl, maxTickets) && Sound(after)
  {
    var kept, left := RerunParts(s, later, now, maxTickets);
    after := RerunIsRepeated(s, id, session, seen, answer, later, now, ttl, maxTickets);
    RepeatedIsSound(kept, id, session, seen, answer, left, later + ttl, after);
  }

  lemma {:induction false} UseKeepsSound(s: State, u: Use, now: int, ttl: int, maxTickets: nat)
    requires Sound(s) && maxTickets > 0 && IsNew(s, u)
    ensures Sound(Used(s, u, now, ttl, maxTickets))
  {
    match u
    case Start(id, terms, attempt) => StartKeepsSound(s, id, terms, attempt, now, ttl, maxTickets);
    case Look(_, _) => PruneKeepsSound(s, now, maxTickets);
    case CloseTicket(id, session) => CloseKeepsSound(s, id, session, now, maxTickets);
    case Rerun(id, session, seen, answer, later) =>
      var after := RerunKeepsSound(s, id, session, seen, answer, later, now, ttl, maxTickets);
  }

  lemma {:induction false} RepeatedIsSound(s: State, id: TicketId, session: nat, seen: Option<Source>, answer: Option<Attempt>,
                                           left: Tickets, expiresAt: int, after: State)
    requires Sound(s) && Distinct(left) && AllRecorded(left, s.records)
    requires after == Repeated(s, id, session, seen, answer, left, expiresAt)
    ensures Sound(after)
  {
    var found := Lookup(s.tickets, id, session);
    if found.Fetched? {
      FoundRecorded(s.tickets, s.records, id);
      if seen.Some? { StopsUnlessAllowed(found.ticket, seen.value); }
      if StopBefore(found.ticket).None? && seen.Some? && StopAfter(found.ticket, seen.value).None? {
        var r := s.records[id];
        RepeatKeepsSound(s, id, seen.value, answer, session, left, expiresAt,
                         r.(repeats := r.repeats + [Evaluation(seen.value, answer)]));
      }
    }
  }

  /** Any sequence of uses, each with its time. */
  ghost predicate IsRun(states: seq<State>, uses: seq<Use>, clock: seq<int>, ttl: int, maxTickets: nat) {
    && |states| == |uses| + 1 && |clock| == |uses| && states[0] == State([], map[])
    && forall k | 0 <= k < |uses| :: IsNew(states[k], uses[k]) && states[k + 1] == Used(states[k], uses[k], clock[k], ttl, maxTickets)
  }

  lemma {:induction false} RunIsSound(states: seq<State>, uses: seq<Use>, clock: seq<int>, ttl: int, maxTickets: nat, k: nat)
    requires IsRun(states, uses, clock, ttl, maxTickets) && maxTickets > 0 && k <= |uses|
    ensures Sound(states[k])
  {
    if k > 0 {
      RunIsSound(states, uses, clock, ttl, maxTickets, k - 1);
      UseKeepsSound(states[k - 1], uses[k - 1], clock[k - 1], ttl, maxTickets);
    }
  }

  /** How many repetitions ran without their answer coming back. */
  function Unanswered(repeats: seq<Evaluation>): nat {
    if repeats == [] then 0
    else Unanswered(repeats[..|repeats| - 1]) + if repeats[|repeats| - 1].answer.None? then 1 else 0
  }

  lemma {:induction false} AnswersCounted(first: Attempt, repeats: seq<Evaluation>)
    ensures |AnsweredBy(first, repeats)| + Unanswered(repeats) == 1 + |repeats|
  {
    if repeats != [] { AnswersCounted(first, repeats[..|repeats| - 1]); }
  }

  /**
   What the guard means for everything ever evaluated under one ticket: no more answers than
   allowed, only the last one complete, and no repetition at all under a risk nobody approved
   or without a second attempt.
   */
  lemma {:induction false} GuardedRecordIsBounded(r: Record, repeats: seq<Evaluation>, k: nat)
    requires Guarded(r) && k <= |r.repeats| && repeats == r.repeats[..k]
    ensures var attempts := AnsweredBy(r.first, repeats);
            && (|attempts| <= 1 || |attempts| <= r.terms.maxAttempts)
            && (forall i | 0 <= i < |attempts| - 1 :: !attempts[i].completed)
    ensures r.repeats != [] ==> (r.terms.risk == Low || r.terms.allowRisky) && r.terms.maxAttempts >= 2
    decreases k
  {
    if r.repeats != [] { assert MayRepeat(r.terms, AnsweredBy(r.first, r.repeats[..0]), r.repeats[0].seen); }
    if k > 0 {
      var before := r.repeats[..k - 1];
      GuardedRecordIsBounded(r, before, k - 1);
      assert repeats == before + [r.repeats[k - 1]];
      OneMoreIsBounded(r.terms, r.first, before, r.repeats[k - 1], AnsweredBy(r.first, before));
    }
  }

  lemma {:induction false} OneMoreIsBounded(terms: Terms, first: Attempt, before: seq<Evaluation>, e: Evaluation, a: seq<Attempt>)
    requires a == AnsweredBy(first, before) && MayRepeat(terms, a, e.seen) && forall i | 0 <= i < |a| - 1 :: !a[i].completed
    ensures var all := AnsweredBy(first, before + [e]);
            |all| <= terms.maxAttempts && forall i | 0 <= i < |all| - 1 :: !all[i].completed
  {
    assert (before + [e])[..|before|] == before;
    var all := a + if e.answer.Some? then [e.answer.value] else [];
    forall i | 0 <= i < |all| - 1 ensures !all[i].completed { assert all[i] == a[i]; }
  }

  /**
   Over any run, for every ticket there ever was: at most `maxAttempts` evaluations and one more
   for every answer that was lost; the first one always runs, and it is the only one unless a
   second is allowed and the risk is approved; none follows a completed one.
   */
  lemma {:induction false} RunIsBounded(states: seq<State>, uses: seq<Use>, clock: seq<int>, ttl: int, maxTickets: nat, k: nat,
                                        id: TicketId)
    requires IsRun(states, uses, clock, ttl, maxTickets) && maxTickets > 0 && k <= |uses| && id in states[k].records
    ensures var r := states[k].records[id]; var attempts := AnsweredBy(r.first, r.repeats);
            && (r.repeats == [] || 1 + |r.repeats| <= r.terms.maxAttempts + Unanswered(r.repeats))
            && (forall i | 0 <= i < |attempts| - 1 :: !attempts[i].completed)
            && (r.repeats != [] ==> (r.terms.risk == Low || r.terms.allowRisky) && r.terms.maxAttempts >= 2)
  {
    RunIsSound(states, uses, clock, ttl, maxTickets, k);
    var r := states[k].records[id];
    assert r.repeats[..|r.repeats|] == r.repeats;
    GuardedRecordIsBounded(r, r.repeats, |r.repeats|);
    AnswersCounted(r.first, r.repeats);
  }

  // ---------------------------------------------------------------- lost answers are not counted

  /** The attempt that failed, and the changed source that is seen before every repetition. */
  function FailedAttempt(): Attempt { Attempt(false, Source([1], Some(0))) }

  function Changed(): Source { Source([2], Some(0)) }

  function Silent(n: nat): (repeats: seq<Evaluation>)
    ensures |repeats| == n
  {
    if n == 0 then [] else Silent(n - 1) + [Evaluation(Changed(), None)]
  }

  function AfterSilence(terms: Terms, ttl: int, n: nat): State {
    State([Entry(0, Ticket(terms, [FailedAttempt()]), ttl)], map[0 := Record(terms, FailedAttempt(), Silent(n))])
  }

  function SilentRerun(terms: Terms): Use {
    Rerun(0, terms.session, Some(Changed()), None, 0)
  }

  lemma {:induction false} SilentRerunRepeats(terms: Terms, ttl: int, maxTickets: nat, n: nat)
    requires terms.maxAttempts >= 2 && (terms.risk == Low || terms.allowRisky) && ttl > 0 && maxTickets >= 2
    ensures Used(AfterSilence(terms, ttl, n), SilentRerun(terms), 0, ttl, maxTickets) == AfterSilence(terms, ttl, n + 1)
  {
    var s := AfterSilence(terms, ttl, n);
    assert Unexpired(s.tickets, 0) == s.tickets;
    assert Pruned(s.tickets, 0, maxTickets) == s.tickets;
    assert Lookup(s.tickets, 0, terms.session) == Fetched(Ticket(terms, [FailedAttempt()]));
    assert s.records[0 := Record(terms, FailedAttempt(), Silent(n + 1))] == AfterSilence(terms, ttl, n + 1).records;
  }

  /**
   A repetition whose answer is lost is evaluated and not counted: however many attempts a
   ticket allows, if it allows a second one, there is a run that evaluates any number of times.
   */
  lemma {:induction false} LostAnswersAreUnbounded(terms: Terms, ttl: int, maxTickets: nat, n: nat)
    returns (states: seq<State>, uses: seq<Use>, clock: seq<int>)
    requires terms.maxAttempts >= 2 && (terms.risk == Low || terms.allowRisky) && ttl > 0 && maxTickets >= 2
    ensures IsRun(states, uses, clock, ttl, maxTickets) && |uses| == n + 1
    ensures states[n + 1] == AfterSilence(terms, ttl, n)
    ensures var r := states[n + 1].records[0]; r.terms == terms && 1 + |r.repeats| == n + 1
  {
    if n == 0 {
      states, uses, clock := [State([], map[]), AfterSilence(terms, ttl, 0)], [Start(0, terms, FailedAttempt())], [0];
    } else {
      var before, sofar, times := LostAnswersAreUnbounded(terms, ttl, maxTickets, n - 1);
      SilentRerunRepeats(terms, ttl, maxTickets, n - 1);
      states, uses, clock := before + [AfterSilence(terms, ttl, n)], sofar + [SilentRerun(terms)], times + [0];
      RunExtended(before, sofar, times, ttl, maxTickets, SilentRerun(terms), 0);
    }
  }

  lemma {:induction false} RunExtended(states: seq<State>, uses: seq<Use>, clock: seq<int>, ttl: int, maxTickets: nat, u: Use, now: int)
    requires IsRun(states, uses, clock, ttl, maxTickets) && IsNew(states[|uses|], u)
    ensures IsRun(states + [Used(states[|uses|], u, now, ttl, maxTickets)], uses + [u], clock + [now], ttl, maxTickets)
  {
    var more, longer, times := states + [Used(states[|uses|], u, now, ttl, maxTickets)], uses + [u], clock + [now];
    forall k | 0 <= k < |longer|
      ensures IsNew(more[k], longer[k]) && more[k + 1] == Used(more[k], longer[k], times[k], ttl, maxTickets) {
      if k < |uses| { assert more[k] == states[k] && more[k + 1] == states[k + 1]; }
    }
  }
}
