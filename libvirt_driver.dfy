/**
 * The libvirt provider's Driver: a process-wide connection created on first
 * use, domain lookup, and the state and address queries built on it.
 *
 * The hypervisor is replaced by data: `fog` says what Fog::Compute.new does
 * with an attribute hash, a ServerLookup says what one `servers.get` call
 * answers, and polls are the address snapshots seen before the timeout.
 */
module LibvirtDriver {
  import opened Hypervisor
  import opened AddressResolver
  import opened StateResolver

  /** The attribute hash `connection` builds from the provider configuration. */
  function ConnAttrsOf(config: ProviderConfig): (attrs: ConnAttrs)
    ensures Provider in attrs && attrs[Provider] == "libvirt"
    ensures LibvirtUri in attrs && attrs[LibvirtUri] == config.uri
    ensures LibvirtIpCommand in attrs && attrs[LibvirtIpCommand] == IP_COMMAND
    ensures LibvirtUsername in attrs <==> config.username.Some?
    ensures config.username.Some? ==> attrs[LibvirtUsername] == config.username.value
    ensures LibvirtPassword in attrs <==> config.password.Some?
    ensures config.password.Some? ==> attrs[LibvirtPassword] == config.password.value
  {
    var base := map[Provider := "libvirt", LibvirtUri := config.uri];
    var withUser := if config.username.Some? then base[LibvirtUsername := config.username.value] else base;
    var withPassword := if config.password.Some? then withUser[LibvirtPassword := config.password.value] else withUser;
    withPassword[LibvirtIpCommand := IP_COMMAND]
  }

  /**
   * What `connection` returns when the shared slot holds `current`: a held
   * connection is returned whatever Fog would do; with an empty slot, Fog's
   * connection, a Fog error wrapped as FogLibvirtConnectionError with its
   * message, or any other exception from Fog unchanged. A failure is only
   * possible with an empty slot.
   */
  function ConnectOutcome(current: Option<LibvirtConnection>, fog: ConnAttrs -> FogOutcome,
                          config: ProviderConfig): (r: Result<LibvirtConnection, DriverError>)
    ensures current.Some? ==> r == Success(current.value)
    ensures current.None? && fog(ConnAttrsOf(config)).Connected? ==> r == Success(fog(ConnAttrsOf(config)).connection)
    ensures current.None? && fog(ConnAttrsOf(config)).FogError? ==>
      r == Failure(FogLibvirtConnectionError(fog(ConnAttrsOf(config)).message))
    ensures current.None? && fog(ConnAttrsOf(config)).FogRaised? ==>
      r == Failure(OtherError(fog(ConnAttrsOf(config)).message))
    ensures r.Failure? <==> current.None? && !fog(ConnAttrsOf(config)).Connected?
  {
    if current.Some? then Success(current.value)
    else
      match fog(ConnAttrsOf(config))
      case Connected(c) => Success(c)
      case FogError(m) => Failure(FogLibvirtConnectionError(m))
      case FogRaised(m) => Failure(OtherError(m))
  }

  /** The shared slot after `connection`: the connection it returned, or still empty. */
  function SlotAfter(current: Option<LibvirtConnection>, fog: ConnAttrs -> FogOutcome,
                     config: ProviderConfig): Option<LibvirtConnection>
  {
    match ConnectOutcome(current, fog, config)
    case Success(c) => Some(c)
    case Failure(_) => None
  }

  /** The attribute hashes handed to Fog by one `connection` call. */
  function AttemptsBy(current: Option<LibvirtConnection>, config: ProviderConfig): seq<ConnAttrs>
  {
    if current.Some? then [] else [ConnAttrsOf(config)]
  }

  /**
   * What `get_domain` returns: a connection error, or the translated lookup.
   * Once a connection is held, only the lookup matters.
   */
  function LookupVia(current: Option<LibvirtConnection>, fog: ConnAttrs -> FogOutcome,
                     config: ProviderConfig, lookup: ServerLookup): (r: DomainLookup)
    ensures current.Some? ==> r == Translate(lookup)
    ensures ConnectOutcome(current, fog, config).Success? ==> r == Translate(lookup)
    ensures ConnectOutcome(current, fog, config).Failure? ==> r == Raised(ConnectOutcome(current, fog, config).error)
    ensures r.Raised? && r.error.FogLibvirtConnectionError? ==> current.None? && fog(ConnAttrsOf(config)).FogError?
    ensures r.Present? ==> lookup == Found(r.domain)
  {
    match ConnectOutcome(current, fog, config)
    case Failure(e) => Raised(e)
    case Success(_) => Translate(lookup)
  }

  /** The driver-level view of each of several lookups. */
  function TranslateAll(lookups: seq<ServerLookup>): seq<DomainLookup>
  {
    seq(|lookups|, i requires 0 <= i < |lookups| => Translate(lookups[i]))
  }

  /**
   * The process-wide connection (a class variable, initially nil) together
   * with the record of every attribute hash handed to Fog.
   */
  class ConnectionSlot {
    var current: Option<LibvirtConnection>
    ghost var attempts: seq<ConnAttrs>

    constructor ()
      ensures current == None && attempts == []
    {
      current := None;
      attempts := [];
    }
  }

  class Driver {
    const machine: Machine
    const slot: ConnectionSlot

    constructor (machine: Machine, slot: ConnectionSlot)
      ensures this.machine == machine && this.slot == slot
    {
      this.machine := machine;
      this.slot := slot;
    }

    /**
     * A connection already in the slot is returned with no connect attempt.
     * Otherwise the attribute hash is built from the configuration and handed
     * to Fog; a new connection is stored and returned, a Fog error becomes a
     * FogLibvirtConnectionError with its message and leaves the slot empty,
     * and any other exception from Fog passes through, leaving it empty too.
     */
    method Connection(fog: ConnAttrs -> FogOutcome) returns (r: Result<LibvirtConnection, DriverError>)
      modifies slot
      ensures old(slot.current).Some? ==>
        r == Success(old(slot.current).value) && slot.current == old(slot.current)
        && slot.attempts == old(slot.attempts)
      ensures old(slot.current).None? ==>
        slot.attempts == old(slot.attempts) + [ConnAttrsOf(machine.providerConfig)]
      ensures old(slot.current).None? ==>
        match fog(ConnAttrsOf(machine.providerConfig))
        case Connected(c) => r == Success(c) && slot.current == Some(c)
        case FogError(m) => r == Failure(FogLibvirtConnectionError(m)) && slot.current == None
        case FogRaised(m) => r == Failure(OtherError(m)) && slot.current == None
    {
      if slot.current.Some? {
        return Success(slot.current.value);
      }
      var config := machine.providerConfig;
      var attrs: ConnAttrs := map[];
      attrs := attrs[Provider := "libvirt"];
      attrs := attrs[LibvirtUri := config.uri];
      if config.username.Some? {
        attrs := attrs[LibvirtUsername := config.username.value];
      }
      if config.password.Some? {
        attrs := attrs[LibvirtPassword := config.password.value];
      }
      attrs := attrs[LibvirtIpCommand := IP_COMMAND];
      assert attrs == ConnAttrsOf(config);
      slot.attempts := slot.attempts + [attrs];
      match fog(attrs)
      case Connected(c) =>
        slot.current := Some(c);
        r := Success(c);
      case FogError(m) =>
        r := Failure(FogLibvirtConnectionError(m));
      case FogRaised(m) =>
        r := Failure(OtherError(m));
    }

    /**
     * `get_domain(mid)`: the connection (which may raise), then the lookup;
     * "no such domain" is nil and other retrieve errors propagate.
     */
    method GetDomain(mid: string, fog: ConnAttrs -> FogOutcome, lookup: ServerLookup) returns (r: DomainLookup)
      modifies slot
      ensures r == LookupVia(old(slot.current), fog, machine.providerConfig, lookup)
      ensures slot.current == SlotAfter(old(slot.current), fog, machine.providerConfig)
      ensures slot.attempts == old(slot.attempts) + AttemptsBy(old(slot.current), machine.providerConfig)
    {
      var conn := Connection(fog);
      if conn.Failure? {
        return Raised(conn.error);
      }
      r := Translate(lookup);
    }

    /** `created?(mid)`: whether `get_domain(mid)` is non-nil. */
    method IsCreated(mid: string, fog: ConnAttrs -> FogOutcome, lookup: ServerLookup)
      returns (r: Result<bool, DriverError>)
      modifies slot
      ensures r == Created(LookupVia(old(slot.current), fog, machine.providerConfig, lookup))
      ensures slot.current == SlotAfter(old(slot.current), fog, machine.providerConfig)
      ensures slot.attempts == old(slot.attempts) + AttemptsBy(old(slot.current), machine.providerConfig)
    {
      var domain := GetDomain(mid, fog, lookup);
      r := Created(domain);
    }

    /**
     * `get_ipaddress(m)`: no domain means nil with no polling; otherwise the
     * outcome of the bounded wait: the address of the first poll that yields
     * one, the error of a poll that raises first, or nil when none turned up
     * in time. `polled` counts the polls made.
     */
    method GetIpAddress(m: Machine, fog: ConnAttrs -> FogOutcome, lookup: ServerLookup, polls: seq<Poll>)
      returns (r: Result<Option<string>, DriverError>, polled: nat)
      modifies slot
      ensures var found := LookupVia(old(slot.current), fog, machine.providerConfig, lookup);
        match found
        case Raised(e) => r == Failure(e) && polled == 0
        case Absent => r == Success(None) && polled == 0
        case Present(_) =>
          r == FirstAddress(polls) && polled <= |polls|
          && (r == Success(None) ==> polled == |polls|)
          && (r.Success? && r.value.Some? ==> 0 < polled && r.value == PollAddress(polls[polled - 1]))
          && (r.Failure? ==> 0 < polled && polls[polled - 1] == PollFailed(r.error))
          && (forall j :: 0 <= j < polled - 1 ==> Missed(polls[j]))
      ensures slot.current == SlotAfter(old(slot.current), fog, machine.providerConfig)
      ensures slot.attempts == old(slot.attempts) + AttemptsBy(old(slot.current), machine.providerConfig)
    {
      var domain := GetDomain(m.id, fog, lookup);
      if domain.Raised? {
        return Failure(domain.error), 0;
      }
      if domain.Absent? {
        return Success(None), 0;
      }
      r, polled := WaitForAddress(polls);
    }

    /**
     * `state(m)`: the initial lookup, then the loop that sleeps and looks the
     * domain up again for as long as it is shutting down. The result is
     * ResolveState over the observations the lookups give; `relookups`
     * counts the lookups made after the initial one.
     */
    method State(m: Machine, fog: ConnAttrs -> FogOutcome, first: ServerLookup, later: seq<ServerLookup>)
      returns (r: StateOutcome, relookups: nat)
      modifies slot
      ensures var obs := [LookupVia(old(slot.current), fog, machine.providerConfig, first)] + TranslateAll(later);
        r == ResolveState(obs[0], obs[1..])
        && relookups == (if r.Waiting? then |later| else SettledAt(obs))
      ensures slot.current == SlotAfter(old(slot.current), fog, machine.providerConfig)
      ensures slot.attempts == old(slot.attempts) + AttemptsBy(old(slot.current), machine.providerConfig)
    {
      ghost var obs := [LookupVia(slot.current, fog, machine.providerConfig, first)] + TranslateAll(later);
      assert obs[1..] == TranslateAll(later);
      var initial := GetDomain(m.id, fog, first);
      assert initial == obs[0];
      if initial.Raised? {
        if initial.error.RetrieveError? {
          return Settled(NOT_CREATED), 0;
        }
        return Failed(initial.error), 0;
      }
      var domain := if initial.Present? then Some(initial.domain) else None;
      assert obs == [AsLookup(domain)] + TranslateAll(later);
      r, relookups := AwaitShutdown(m, fog, domain, later);
    }

    /**
     * The `loop do` of `state(m)`, entered with a connection held: while the
     * domain is shutting down, look it up again. The result is Stabilise over
     * the translated re-lookups; `relookups` counts them.
     */
    method AwaitShutdown(m: Machine, fog: ConnAttrs -> FogOutcome, current: Option<Domain>, later: seq<ServerLookup>)
      returns (r: StateOutcome, relookups: nat)
      requires slot.current.Some?
      modifies slot
      ensures var obs := [AsLookup(current)] + TranslateAll(later);
        r == Stabilise(current, obs[1..])
        && relookups == (if r.Waiting? then |later| else SettledAt(obs))
      ensures slot.current == old(slot.current) && slot.attempts == old(slot.attempts)
    {
      ghost var obs := [AsLookup(current)] + TranslateAll(later);
      ghost var target := Stabilise(current, obs[1..]);
      var domain := current;
      var i := 0;
      while domain.Some? && domain.value.state == SHUTTING_DOWN && i < |later|
        invariant 0 <= i <= |later|
        invariant slot.current == old(slot.current) && slot.attempts == old(slot.attempts)
        invariant obs[i] == AsLookup(domain)
        invariant forall j :: 0 <= j < i ==> ShuttingDown(obs[j])
        invariant target == Stabilise(domain, obs[i + 1..])
      {
        assert obs[i + 1..][1..] == obs[i + 2..];
        var next := GetDomain(m.id, fog, later[i]);
        assert next == obs[i + 1] == Translate(later[i]);
        i := i + 1;
        if next.Raised? {
          assert SettledAt(obs) == i by {
            SettledAtIs(obs, i);
          }
          return Failed(next.error), i;
        }
        domain := if next.Present? then Some(next.domain) else None;
      }
      if domain.Some? && domain.value.state == SHUTTING_DOWN {
        return Waiting, i;
      }
      SettledAtIs(obs, i);
      if domain.None? || domain.value.state == TERMINATED {
        return Settled(NOT_CREATED), i;
      }
      r, relookups := Settled(domain.value.state), i;
    }
  }

  /** The first settling observation is the only one with every earlier observation shutting down. */
  lemma SettledAtIs(obs: seq<DomainLookup>, k: nat)
    requires k < |obs| && !ShuttingDown(obs[k])
    requires forall j :: 0 <= j < k ==> ShuttingDown(obs[j])
    ensures SettledAt(obs) == k
  {
  }

  /**
   * Two drivers of the same process share one connection: once one of them
   * has connected, the other gets that very connection and Fog is not asked
   * again.
   */
  method SharedConnection(a: Driver, b: Driver, fog1: ConnAttrs -> FogOutcome, fog2: ConnAttrs -> FogOutcome)
    returns (r1: Result<LibvirtConnection, DriverError>, r2: Result<LibvirtConnection, DriverError>)
    requires a.slot == b.slot
    modifies a.slot
    ensures r1.Success? ==> r2 == r1 && a.slot.current == Some(r1.value)
    ensures r1.Success? ==> a.slot.attempts == old(a.slot.attempts) + AttemptsBy(old(a.slot.current), a.machine.providerConfig)
    ensures r1.Failure? ==> a.slot.current == SlotAfter(None, fog2, b.machine.providerConfig)
  {
    r1 := a.Connection(fog1);
    r2 := b.Connection(fog2);
  }
}
