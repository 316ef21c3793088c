/**
 * The state the driver reports for a machine: the domain's libvirt state,
 * except that a missing or terminated domain reads as not_created and the
 * transient shutting-down state is waited out by looking the domain up again.
 *
 * Time is a finite list of observations: `first` is the initial lookup and
 * `later` the lookups made after each one-second sleep.
 */
module StateResolver {
  import opened Hypervisor

  const NOT_CREATED: string := "not_created"
  const TERMINATED: string := "terminated"
  const SHUTTING_DOWN: string := "shutting-down"

  /**
   * What `state` comes to: a stable state, an error raised to the caller, or
   * Waiting when the observations run out while the domain is still shutting
   * down (the Ruby code would still be sleeping).
   */
  datatype StateOutcome = Settled(state: string) | Failed(error: DriverError) | Waiting

  predicate ShuttingDown(o: DomainLookup)
  {
    o.Present? && o.domain.state == SHUTTING_DOWN
  }

  function AsLookup(current: Option<Domain>): DomainLookup
  {
    if current.Some? then Present(current.value) else Absent
  }

  /**
   * The body of the `loop do`: examine the current domain, or look it up
   * again. A reported state is one some lookup observed, and an error is one
   * some re-lookup raised.
   */
  function Stabilise(current: Option<Domain>, later: seq<DomainLookup>): (r: StateOutcome)
    ensures r.Settled? && r.state != NOT_CREATED ==>
      (current.Some? && r.state == current.value.state)
      || exists k :: 0 <= k < |later| && later[k].Present? && later[k].domain.state == r.state
    ensures r.Failed? ==> exists k :: 0 <= k < |later| && later[k] == Raised(r.error)
    decreases |later|
  {
    if current.None? || current.value.state == TERMINATED then Settled(NOT_CREATED)
    else if current.value.state != SHUTTING_DOWN then Settled(current.value.state)
    else if later == [] then Waiting
    else
      var r := match later[0]
        case Raised(e) => Failed(e)
        case Absent => Stabilise(None, later[1..])
        case Present(d) => Stabilise(Some(d), later[1..]);
      assert r.Settled? && r.state != NOT_CREATED ==>
        exists k :: 0 <= k < |later| && later[k].Present? && later[k].domain.state == r.state by {
        if r.Settled? && r.state != NOT_CREATED && later[0].Present? && r.state != later[0].domain.state {
          var k :| 0 <= k < |later[1..]| && later[1..][k].Present? && later[1..][k].domain.state == r.state;
          assert later[k + 1] == later[1..][k];
        }
      }
      assert r.Failed? ==> exists k :: 0 <= k < |later| && later[k] == Raised(r.error) by {
        if r.Failed? && !later[0].Raised? {
          var k :| 0 <= k < |later[1..]| && later[1..][k] == Raised(r.error);
          assert later[k + 1] == later[1..][k];
        }
      }
      r
  }

  /**
   * `state`: a retrieve error on the initial lookup reads as not_created,
   * any other error leaves; otherwise the loop runs on the looked-up domain.
   */
  function ResolveState(first: DomainLookup, later: seq<DomainLookup>): (r: StateOutcome)
    ensures r.Settled? && r.state != NOT_CREATED ==>
      (first.Present? && r.state == first.domain.state)
      || exists k :: 0 <= k < |later| && later[k].Present? && later[k].domain.state == r.state
    ensures r.Failed? ==>
      (first == Raised(r.error) && !r.error.RetrieveError?)
      || exists k :: 0 <= k < |later| && later[k] == Raised(r.error)
  {
    match first
    case Raised(e) => if e.RetrieveError? then Settled(NOT_CREATED) else Failed(e)
    case Absent => Stabilise(None, later)
    case Present(d) => Stabilise(Some(d), later)
  }

  /** Position of the first observation that is not shutting-down, `|obs|` if none. */
  function SettledAt(obs: seq<DomainLookup>): (k: nat)
    ensures k <= |obs|
    ensures forall j :: 0 <= j < k ==> ShuttingDown(obs[j])
    ensures k < |obs| ==> !ShuttingDown(obs[k])
  {
    if obs == [] || !ShuttingDown(obs[0]) then 0 else 1 + SettledAt(obs[1..])
  }

  /**
   * Reference reading of one settling observation: no domain or a terminated
   * one is not_created, an error is raised (except a retrieve error on the
   * initial lookup, which is not_created), any other state is reported as is.
   */
  function Classify(o: DomainLookup, initial: bool): StateOutcome
  {
    match o
    case Raised(e) => if initial && e.RetrieveError? then Settled(NOT_CREATED) else Failed(e)
    case Absent => Settled(NOT_CREATED)
    case Present(d) => if d.state == TERMINATED then Settled(NOT_CREATED) else Settled(d.state)
  }

  lemma {:induction false} StabiliseIsFirstSettled(current: Option<Domain>, later: seq<DomainLookup>)
    ensures var obs := [AsLookup(current)] + later;
      var k := SettledAt(obs);
      Stabilise(current, later) == if k == |obs| then Waiting else Classify(obs[k], false)
    decreases |later|
  {
    var obs := [AsLookup(current)] + later;
    if current.Some? && current.value.state == SHUTTING_DOWN && later != [] {
      assert obs[1..] == later;
      match later[0]
      case Raised(e) =>
        assert SettledAt(later) == 0;
      case Absent =>
        StabiliseIsFirstSettled(None, later[1..]);
        assert later == [AsLookup(None)] + later[1..];
      case Present(d) =>
        StabiliseIsFirstSettled(Some(d), later[1..]);
        assert later == [AsLookup(Some(d))] + later[1..];
    }
  }

  /**
   * The result of `state` is the first observation that is not
   * shutting-down, read by Classify; every observation before it was
   * shutting-down and was followed by a fresh lookup.
   */
  lemma ResolveStateIsFirstSettled(first: DomainLookup, later: seq<DomainLookup>)
    ensures var obs := [first] + later;
      var k := SettledAt(obs);
      ResolveState(first, later) == if k == |obs| then Waiting else Classify(obs[k], k == 0)
  {
    match first
    case Raised(_) =>
    case Absent => StabiliseIsFirstSettled(None, later);
    case Present(d) => StabiliseIsFirstSettled(Some(d), later);
  }

  /** `state` never reports the transient shutting-down state. */
  lemma NeverShuttingDown(first: DomainLookup, later: seq<DomainLookup>)
    ensures ResolveState(first, later) != Settled(SHUTTING_DOWN)
  {
    ResolveStateIsFirstSettled(first, later);
  }

  /**
   * A missing domain, a terminated one or a retrieve error on the initial
   * lookup is not_created, and a settled first observation is final: no
   * later lookup changes the answer.
   */
  lemma SettledWithoutPolling(first: DomainLookup, later: seq<DomainLookup>)
    requires !ShuttingDown(first)
    ensures ResolveState(first, later) == ResolveState(first, [])
    ensures first.Absent? || (first.Raised? && first.error.RetrieveError?)
        || (first.Present? && first.domain.state == TERMINATED)
      ==> ResolveState(first, later) == Settled(NOT_CREATED)
  {
  }

  /** A domain that reports shutting-down and then shut off settles as shut off. */
  lemma ShutdownSettles()
    ensures ResolveState(Present(Domain(SHUTTING_DOWN)), [Present(Domain("shutoff"))]) == Settled("shutoff")
  {
  }

  /**
   * A re-lookup inside the loop that finds no domain (nil, or the "no such
   * domain" retrieve error turned into nil) settles as not_created.
   */
  lemma NoDomainOnRelookup(later: seq<DomainLookup>)
    ensures ResolveState(Present(Domain(SHUTTING_DOWN)), [Translate(RetrieveFailed(VIR_ERR_NO_DOMAIN))] + later)
      == Settled(NOT_CREATED)
  {
    var later' := [Translate(RetrieveFailed(VIR_ERR_NO_DOMAIN))] + later;
    assert later'[0] == Absent;
    assert later'[1..] == later;
    assert Stabilise(None, later) == Settled(NOT_CREATED);
    assert SHUTTING_DOWN != TERMINATED;
    assert Stabilise(Some(Domain(SHUTTING_DOWN)), later') == Stabilise(None, later);
  }
}
