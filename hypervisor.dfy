/**
 * Values exchanged between the libvirt provider's driver and the hypervisor
 * boundary (Fog's libvirt compute service), and the translation of a raw
 * domain lookup into the driver's "found / absent / error" result.
 */
module Hypervisor {

  datatype Option<+T> = None | Some(value: T)

  datatype Result<+R, +E> = Success(value: R) | Failure(error: E)

  /** Keys of the attribute hash handed to Fog when connecting. */
  datatype AttrKey = Provider | LibvirtUri | LibvirtUsername | LibvirtPassword | LibvirtIpCommand

  type ConnAttrs = map<AttrKey, string>

  /** The provider configuration the driver reads: endpoint URI and optional credentials. */
  datatype ProviderConfig = ProviderConfig(uri: string, username: Option<string>, password: Option<string>)

  /** The Vagrant machine: its domain identifier and its provider configuration. */
  datatype Machine = Machine(id: string, providerConfig: ProviderConfig)

  /** An established Fog libvirt connection; equal sessions stand for the same object. */
  datatype LibvirtConnection = LibvirtConnection(session: nat)

  /**
   * What Fog::Compute.new does with a given attribute hash: connect, raise a
   * Fog::Errors::Error, or raise any other exception (which is not rescued).
   */
  datatype FogOutcome = Connected(connection: LibvirtConnection) | FogError(message: string) | FogRaised(message: string)

  /** A domain handle as fetched by one lookup; its state is the libvirt state name. */
  datatype Domain = Domain(state: string)

  /**
   * What `servers.get(mid)` does on one call: a handle, nil, a
   * Libvirt::RetrieveError with its libvirt code, or any other exception.
   */
  datatype ServerLookup = Found(domain: Domain) | Nil | RetrieveFailed(code: int) | OtherFailure(message: string)

  /** The errors that leave the driver; OtherError is any exception the driver does not rescue. */
  datatype DriverError = FogLibvirtConnectionError(message: string) | RetrieveError(code: int) | OtherError(message: string)

  /** The driver-level view of a lookup: a handle, no domain, or an error raised to the caller. */
  datatype DomainLookup = Present(domain: Domain) | Absent | Raised(error: DriverError)

  /** libvirt's error number for "domain not found" (virErrorNumber VIR_ERR_NO_DOMAIN). */
  const VIR_ERR_NO_DOMAIN: int := 42

  /** The command Fog runs to find a MAC address's IP in the ARP table; opaque here. */
  const IP_COMMAND: string := " awk \"/$mac/ {print \\$1}\" /proc/net/arp "

  /**
   * The rescue clause of get_domain: the "no such domain" retrieve error
   * becomes nil, every other retrieve error is raised again unchanged, an
   * exception that is not a retrieve error is not rescued, and a handle (or
   * nil) from the lookup is passed through.
   */
  function Translate(lookup: ServerLookup): (r: DomainLookup)
    ensures r.Absent? <==> lookup.Nil? || lookup == RetrieveFailed(VIR_ERR_NO_DOMAIN)
    ensures r.Present? <==> lookup.Found?
    ensures r.Present? ==> r.domain == lookup.domain
    ensures r.Raised? <==> (lookup.RetrieveFailed? && lookup.code != VIR_ERR_NO_DOMAIN) || lookup.OtherFailure?
    ensures r.Raised? && lookup.RetrieveFailed? ==> r.error == RetrieveError(lookup.code)
    ensures r.Raised? && lookup.OtherFailure? ==> r.error == OtherError(lookup.message)
  {
    match lookup
    case Found(d) => Present(d)
    case Nil => Absent
    case RetrieveFailed(code) =>
      if code == VIR_ERR_NO_DOMAIN then Absent else Raised(RetrieveError(code))
    case OtherFailure(message) => Raised(OtherError(message))
  }

  /**
   * created?: true exactly when the lookup yields a handle; an error raised
   * by the lookup leaves created? as well.
   */
  function Created(lookup: DomainLookup): (r: Result<bool, DriverError>)
    ensures r.Failure? <==> lookup.Raised?
    ensures r.Failure? ==> r.error == lookup.error
    ensures r.Success? ==> (r.value <==> lookup.Present?)
  {
    match lookup
    case Raised(e) => Failure(e)
    case Present(_) => Success(true)
    case Absent => Success(false)
  }
}
