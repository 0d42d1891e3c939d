// No refresh request is lost, although leases expire, workers finish late, and rows come back at version 1.
module ReputationRuns {
  import opened Options
  import opened Ids
  import opened ReputationQueue

  // A claim a worker still holds, with the number of requests the row had seen when it was made.
  datatype Claim = Claim(job: Job, seen: nat)

  // Requests of a route are numbered; `served` is the last one that a completed calculation covered.
  datatype World = World(clock: int, rows: map<nat, Row>, requests: map<nat, nat>, served: map<nat, nat>, claims: set<Claim>)

  datatype Event =
    | Tick(elapsed: nat)
    | Request(ids: set<nat>)
    | Take(taken: set<nat>, lease: int)
    | Finish(batch: set<Claim>, succeeded: bool)

  ghost function Count(counts: map<nat, nat>, id: nat): nat {
    if id in counts then counts[id] else 0
  }

  ghost function JobsIn(batch: set<Claim>): set<Job> {
    set claim | claim in batch :: claim.job
  }

  // A worker finishes jobs of its own claims, at most one of a route.
  ghost predicate Legal(w: World, e: Event) {
    match e
    case Tick(_) => true
    case Request(_) => true
    case Take(taken, lease) => lease > 0 && forall id | id in taken :: Claimable(w.rows, w.clock, id)
    case Finish(batch, _) => batch <= w.claims && forall a, b | a in batch && b in batch && a.job.id == b.job.id :: a == b
  }

  // The requests a success covers are those its claim had seen.
  ghost function Served(w: World, batch: set<Claim>, succeeded: bool): map<nat, nat> {
    map id | id in w.rows.Keys + w.served.Keys ::
      if succeeded && id in w.rows && Finished(JobsIn(batch), id, w.rows[id])
      then var claim :| claim in batch && Owns(claim.job, id, w.rows[id]) && claim.job.version == w.rows[id].version; claim.seen
      else Count(w.served, id)
  }

  ghost function NewClaims(w: World, taken: set<nat>, lease: int): set<Claim> {
    set id | id in taken && id in w.rows :: Claim(JobOf(w.rows, id).(lease := w.clock + lease), Count(w.requests, id))
  }

  ghost function Next(w: World, e: Event): World
    requires Legal(w, e)
  {
    match e
    case Tick(elapsed) => w.(clock := w.clock + elapsed)
    case Request(ids) =>
      w.(rows := Requested(w.rows, ids, w.clock), requests := w.requests + map id | id in ids :: Count(w.requests, id) + 1)
    case Take(taken, lease) =>
      w.(rows := Leased(w.rows, taken, w.clock + lease), claims := w.claims + NewClaims(w, taken, lease))
    case Finish(batch, succeeded) =>
      w.(rows := Completed(w.rows, JobsIn(batch), succeeded, w.clock), served := Served(w, batch, succeeded), claims := w.claims - batch)
  }

  // A held claim still has the row's lease, or its lease has run out. While it has the lease, the row's
  // version tells how many requests came since.
  ghost predicate Fenced(w: World, claim: Claim) {
    && claim.job.lease > 0
    && (w.clock >= claim.job.lease || (claim.job.id in w.rows && w.rows[claim.job.id].lease == claim.job.lease))
    && claim.seen <= Count(w.requests, claim.job.id)
    && (claim.job.id in w.rows && w.rows[claim.job.id].lease == claim.job.lease ==>
          w.rows[claim.job.id].version - claim.job.version == Count(w.requests, claim.job.id) - claim.seen)
  }

  ghost predicate Sound(w: World) {
    && w.clock >= 0
    && (forall claim | claim in w.claims :: Fenced(w, claim))
    && (forall a, b | a in w.claims && b in w.claims && a.job.id == b.job.id && a.job.lease == b.job.lease :: a == b)
    && (forall id :: id in w.rows || Count(w.served, id) == Count(w.requests, id))
    && (forall id :: Count(w.served, id) <= Count(w.requests, id))
  }

  lemma StepKeepsServed(w: World, e: Event, id: nat)
    requires Sound(w) && Legal(w, e)
    ensures var after := Next(w, e);
            && Count(after.served, id) <= Count(after.requests, id)
            && (id in after.rows || Count(after.served, id) == Count(after.requests, id))
  {
  }

  lemma StepKeepsFenced(w: World, e: Event, claim: Claim)
    requires Sound(w) && Legal(w, e) && claim in Next(w, e).claims
    ensures Fenced(Next(w, e), claim)
  {
    if claim in w.claims {
      assert Fenced(w, claim);
    }
  }

  lemma StepKeepsDistinct(w: World, e: Event, a: Claim, b: Claim)
    requires Sound(w) && Legal(w, e) && a in Next(w, e).claims && b in Next(w, e).claims
    requires a.job.id == b.job.id && a.job.lease == b.job.lease
    ensures a == b
  {
    if a in w.claims { assert Fenced(w, a); }
    if b in w.claims { assert Fenced(w, b); }
  }

  lemma StepKeepsSound(w: World, e: Event)
    requires Sound(w) && Legal(w, e)
    ensures Sound(Next(w, e))
  {
    hide Fenced, Served, Completed, NewClaims, Requested, Leased;
    var after := Next(w, e);
    forall claim | claim in after.claims { StepKeepsFenced(w, e, claim); }
    forall a, b | a in after.claims && b in after.claims && a.job.id == b.job.id && a.job.lease == b.job.lease { StepKeepsDistinct(w, e, a, b); }
    forall id { StepKeepsServed(w, e, id); }
  }

  ghost predicate LegalRun(w: World, events: seq<Event>)
    decreases |events|
  {
    events != [] ==> Legal(w, events[0]) && LegalRun(Next(w, events[0]), events[1..])
  }

  ghost function After(w: World, events: seq<Event>): World
    requires LegalRun(w, events)
    decreases |events|
  {
    if events == [] then w else After(Next(w, events[0]), events[1..])
  }

  const START := World(0, map[], map[], map[], {})

  lemma {:induction false} RunKeepsSound(w: World, events: seq<Event>)
    requires Sound(w) && LegalRun(w, events)
    ensures Sound(After(w, events))
    decreases |events|
  {
    if events != [] {
      StepKeepsSound(w, events[0]);
      RunKeepsSound(Next(w, events[0]), events[1..]);
    }
  }

  ghost predicate Reachable(w: World) {
    exists events :: LegalRun(START, events) && After(START, events) == w
  }

  lemma ReachableIsSound(w: World)
    requires Reachable(w)
    ensures Sound(w)
  {
    var events :| LegalRun(START, events) && After(START, events) == w;
    RunKeepsSound(START, events);
  }

  // A row survives every completion by claims that were made before its latest request.
  lemma LaterRequestSurvives(w: World, batch: set<Claim>, succeeded: bool, id: nat)
    requires Reachable(w) && Legal(w, Finish(batch, succeeded)) && id in w.rows
    requires forall claim | claim in batch && claim.job.id == id :: claim.seen < Count(w.requests, id)
    ensures id in Next(w, Finish(batch, succeeded)).rows
  {
    ReachableIsSound(w);
  }

  // A request that no successful calculation has covered is still queued.
  lemma NoRequestIsLost(w: World, id: nat)
    requires Reachable(w) && Count(w.served, id) < Count(w.requests, id)
    ensures id in w.rows
  {
    ReachableIsSound(w);
  }

  // What a successful worker still owned but could not delete is claimable at once.
  lemma SuccessReleases(w: World, batch: set<Claim>, claim: Claim)
    requires Reachable(w) && Legal(w, Finish(batch, true)) && claim in batch
    requires claim.job.id in w.rows && Owns(claim.job, claim.job.id, w.rows[claim.job.id])
    ensures var after := Next(w, Finish(batch, true));
            claim.job.id in after.rows ==> Claimable(after.rows, after.clock, claim.job.id)
  {
    ReachableIsSound(w);
    assert claim.job in JobsIn(batch);
  }

  // Two workers never hold the same lease of a route, however often the row was deleted and queued again.
  lemma LeasesAreUnique(w: World, a: Claim, b: Claim)
    requires Reachable(w) && a in w.claims && b in w.claims && a != b && a.job.id == b.job.id
    ensures a.job.lease != b.job.lease && (w.clock >= a.job.lease || w.clock >= b.job.lease)
  {
    ReachableIsSound(w);
    assert Fenced(w, a) && Fenced(w, b);
  }

  // While its lease runs, a success deletes the row if and only if no request came since the claim.
  lemma SuccessDeletesExactly(w: World, batch: set<Claim>, claim: Claim)
    requires Reachable(w) && Legal(w, Finish(batch, true)) && claim in batch && w.clock < claim.job.lease
    ensures claim.job.id !in Next(w, Finish(batch, true)).rows <==> claim.seen == Count(w.requests, claim.job.id)
  {
    hide Fenced, Served;
    ReachableIsSound(w);
    assert claim.job in JobsIn(batch);
    LeaseRuns(w, claim);
    forall job | job in JobsIn(batch) && job.id == claim.job.id ensures job == claim.job {
      var other :| other in batch && other.job == job;
    }
  }

  lemma LeaseRuns(w: World, claim: Claim)
    requires Fenced(w, claim) && w.clock < claim.job.lease
    ensures claim.job.id in w.rows && w.rows[claim.job.id].lease == claim.job.lease
    ensures w.rows[claim.job.id].version == claim.job.version <==> claim.seen == Count(w.requests, claim.job.id)
  {
  }

  // While its lease runs, a failure keeps the row with its version and place, and hands it out again after five seconds.
  lemma FailureDelays(w: World, batch: set<Claim>, claim: Claim)
    requires Reachable(w) && Legal(w, Finish(batch, false)) && claim in batch && w.clock < claim.job.lease
    ensures var id, after := claim.job.id, Next(w, Finish(batch, false)).rows;
            && id in w.rows && id in after && after[id].version == w.rows[id].version && after[id].requestedAt == w.rows[id].requestedAt
            && forall time :: Claimable(after, time, id) <==> time >= w.clock + 5 * SECOND
  {
    hide Fenced;
    ReachableIsSound(w);
    assert claim.job in JobsIn(batch);
    LeaseRuns(w, claim);
  }

  // A claimed row is out of reach for exactly the time of its lease.
  lemma TakeHoldsExactly(w: World, taken: set<nat>, lease: int, id: nat, time: int)
    requires Legal(w, Take(taken, lease)) && id in taken
    ensures Claimable(Next(w, Take(taken, lease)).rows, time, id) <==> time >= w.clock + lease
  {
  }

  ghost predicate StaysQueued(w: World, events: seq<Event>, id: nat)
    requires LegalRun(w, events)
    decreases |events|
  {
    id in w.rows && (events != [] ==> StaysQueued(Next(w, events[0]), events[1..], id))
  }

  lemma {:induction false} RunKeepsPlace(w: World, events: seq<Event>, id: nat)
    requires LegalRun(w, events) && StaysQueued(w, events, id)
    ensures id in After(w, events).rows && After(w, events).rows[id].requestedAt == w.rows[id].requestedAt
    decreases |events|
  {
    if events != [] {
      hide Served, NewClaims;
      RunKeepsPlace(Next(w, events[0]), events[1..], id);
    }
  }

  // The first request of a route takes its place in the queue, free to be claimed; over every run that leaves it
  // queued, later requests, claims and failures keep that place.
  lemma FirstRequestSetsPlace(w: World, ids: set<nat>, id: nat, events: seq<Event>)
    requires id in ids && id !in w.rows
    requires LegalRun(Next(w, Request(ids)), events) && StaysQueued(Next(w, Request(ids)), events, id)
    ensures Claimable(Next(w, Request(ids)).rows, 0, id)
    ensures id in After(Next(w, Request(ids)), events).rows && After(Next(w, Request(ids)), events).rows[id].requestedAt == w.clock
  {
    RunKeepsPlace(Next(w, Request(ids)), events, id);
  }
}
