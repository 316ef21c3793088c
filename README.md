# vagrant-libvirt Driver, modelled in Dafny

This project models the `Driver` class of the vagrant-libvirt provider
(`lib/vagrant-libvirt/driver.rb`). The driver lets Vagrant observe a libvirt
domain. It does four things:

- It keeps one process-wide Fog libvirt connection (`@@connection`). The
  connection is created on first use from the provider configuration.
- It looks a domain up by machine id (`get_domain`, `created?`). libvirt's
  "no such domain" error becomes nil.
- It reports the domain's state (`state`). A missing or terminated domain reads
  as `not_created`, and the transient `shutting-down` state is waited out.
- It finds the domain's IP address (`get_ipaddress`) by polling the reported
  addresses for a bounded time.

The hypervisor is replaced by data:

- `fog: ConnAttrs -> FogOutcome` says what `Fog::Compute.new` does with an
  attribute hash: connect (`Connected`), raise a Fog::Errors::Error
  (`FogError`), or raise any other exception (`FogRaised`).
- A `ServerLookup` (`Found | Nil | RetrieveFailed(code) | OtherFailure(message)`)
  is what one `servers.get(mid)` call answers. `OtherFailure` is any exception
  that is not a Libvirt::RetrieveError.
- `state` gets the answers of its initial lookup and of its later lookups as a
  finite sequence.
- `get_ipaddress` gets the polls made before the wait times out as a finite
  sequence. Each poll is either the domain's address hash (`Answered`) or an
  exception raised while fetching it (`PollFailed`).

Modules:

- `Hypervisor` (hypervisor.dfy): the values at the hypervisor boundary, and the
  error translation of `get_domain` and `created?`.
- `AddressResolver` (address_resolver.dfy): Ruby's `split("\n").first`, the
  `each_pair` scan of one poll, and the bounded `wait_for` polling.
- `StateResolver` (state_resolver.dfy): the specification of `state` and the
  lemmas about it.
- `LibvirtDriver` (libvirt_driver.dfy): the shared connection slot
  (`ConnectionSlot`) and the `Driver` class. Its methods change that slot, and
  each method's `ensures` ties its result to the specification functions.

The model keeps these details of Ruby semantics:

- A username or password is put in the attribute hash whenever it is not nil.
  An empty string is included, because in Ruby only nil and false are falsy.
- A retrieve error other than VIR_ERR_NO_DOMAIN from a lookup made inside the
  shutting-down loop is raised to the caller (`Failed`). It is not retried and
  not turned into `not_created`. Only the initial lookup swallows such errors.
  A VIR_ERR_NO_DOMAIN error in the loop becomes nil, as everywhere, and so
  gives `not_created`.
- An empty-string address left by the scan is returned as an address, because
  it is truthy in Ruby.

## Model

| member | source | states |
|---|---|---|
| `Hypervisor.Translate` | lib/vagrant-libvirt/driver.rb:51-64 | a lookup is nil exactly when it gives nil or fails with VIR_ERR_NO_DOMAIN; a handle is passed through; any other retrieve error is raised again with its code; an exception that is not a retrieve error is not rescued |
| `Hypervisor.Created` | lib/vagrant-libvirt/driver.rb:66-69 | `created?` is true iff the lookup gives a handle; an error raised by the lookup propagates |
| `AddressResolver.SplitLines` | lib/vagrant-libvirt/driver.rb:87 | `split("\n")` yields records that contain no newline, the last of them never empty |
| `AddressResolver.FirstRecord` | lib/vagrant-libvirt/driver.rb:87 | `split("\n").first`, when not nil, is a single lease record containing no newline |
| `AddressResolver.FirstRecordIsFirstLine` | lib/vagrant-libvirt/driver.rb:85-87 | `split("\n").first` is nil iff the value holds only newlines (the empty string included); otherwise it is the text before the first newline |
| `AddressResolver.FirstRecordIsOneLine` | lib/vagrant-libvirt/driver.rb:85-87 | the kept record is a prefix of the value and contains no newline, so it never spans two leases |
| `AddressResolver.FirstOfSeveralLeases` | lib/vagrant-libvirt/driver.rb:85-87 | for a value "latest\nolder…" whose first record is non-empty and has no newline, the first (most recent) record is kept |
| `AddressResolver.MostRecentLeaseKept` | lib/vagrant-libvirt/driver.rb:85-87 | "10.0.0.5\n10.0.0.9" yields 10.0.0.5 |
| `AddressResolver.SnapshotAddress` | lib/vagrant-libvirt/driver.rb:84-88 | the address after one poll's `each_pair` scan is the incoming address or the first record of some entry with a non-nil first value |
| `AddressResolver.LastLeaseWins` | lib/vagrant-libvirt/driver.rb:84-88 | when several entries of one poll carry a lease, the last one in iteration order decides the address, even if its record is nil |
| `AddressResolver.NoLeaseKeepsAddress` | lib/vagrant-libvirt/driver.rb:84-88 | a poll in which no entry has a non-nil first value leaves the address unchanged |
| `AddressResolver.ScanSnapshot` | lib/vagrant-libvirt/driver.rb:84-88 | the `each_pair` loop ends with the address that SnapshotAddress gives for that poll |
| `AddressResolver.FirstAddress` | lib/vagrant-libvirt/driver.rb:83-98 | an address returned by the wait comes from some answered poll, and an error raised by the wait is the error of some failed poll |
| `AddressResolver.FirstAddressIsFirstHit` | lib/vagrant-libvirt/driver.rb:83-90 | polling ends at the first poll that leaves a non-nil address, and returns that address |
| `AddressResolver.PollErrorPropagates` | lib/vagrant-libvirt/driver.rb:82-93 | an exception raised by a poll before any address turned up leaves the wait, since only the timeout is rescued |
| `AddressResolver.NoAddressWithinWindow` | lib/vagrant-libvirt/driver.rb:89-98 | if no poll before the timeout yields an address, the result is nil and no error is raised |
| `AddressResolver.WaitForAddress` | lib/vagrant-libvirt/driver.rb:81-98 | the wait returns FirstAddress of the polls; it uses every poll when it finds nothing; otherwise it stops at the first poll that yields an address or raises, and every earlier poll was answered with no address |
| `StateResolver.Stabilise` | lib/vagrant-libvirt/driver.rb:117-130 | the loop reports either not_created or a state some lookup observed, and raises only an error some re-lookup raised |
| `StateResolver.ResolveState` | lib/vagrant-libvirt/driver.rb:109-130 | `state` reports either not_created or an observed state; it raises only a non-retrieve error of the initial lookup or an error of a re-lookup |
| `StateResolver.ResolveStateIsFirstSettled` | lib/vagrant-libvirt/driver.rb:109-130 | the result of `state` is the first observation that is not shutting-down, read by Classify; it is Waiting when every observation is shutting-down |
| `StateResolver.NeverShuttingDown` | lib/vagrant-libvirt/driver.rb:117-125 | `state` never returns shutting-down |
| `StateResolver.SettledWithoutPolling` | lib/vagrant-libvirt/driver.rb:109-125 | a nil domain, a terminated one, or a retrieve error on the initial lookup gives not_created; a first observation that is not shutting-down decides the result, whatever later lookups would say |
| `StateResolver.NoDomainOnRelookup` | lib/vagrant-libvirt/driver.rb:117-130 | a VIR_ERR_NO_DOMAIN error on a re-lookup inside the loop becomes nil and gives not_created |
| `StateResolver.ShutdownSettles` | lib/vagrant-libvirt/driver.rb:117-130 | shutting-down followed by shutoff settles as shutoff |
| `LibvirtDriver.ConnAttrsOf` | lib/vagrant-libvirt/driver.rb:29-38 | the attribute hash always holds provider "libvirt", the configured URI and the fixed IP command; username and password appear iff they are configured, with the configured values |
| `LibvirtDriver.ConnectOutcome` | lib/vagrant-libvirt/driver.rb:20-48 | a held connection is returned whatever Fog would do; with an empty slot the result is Fog's connection, a Fog error wrapped as FogLibvirtConnectionError with Fog's message, or any other exception from Fog unchanged; it fails exactly when the slot is empty and Fog does not connect |
| `LibvirtDriver.LookupVia` | lib/vagrant-libvirt/driver.rb:51-64 | when `connection` succeeds (a held connection, or a fresh one), get_domain is the translated lookup; when it fails, get_domain raises that error; a FogLibvirtConnectionError arises only with an empty slot and a Fog error; a handle comes from the lookup |
| `LibvirtDriver.ConnectionSlot.constructor` | lib/vagrant-libvirt/driver.rb:13 | the process starts with no connection and no connect attempt |
| `LibvirtDriver.Driver.constructor` | lib/vagrant-libvirt/driver.rb:15-18 | a driver is bound to its machine and to the process-wide slot |
| `LibvirtDriver.Driver.Connection` | lib/vagrant-libvirt/driver.rb:20-49 | a filled slot is returned as is, with no new attempt and the slot unchanged; otherwise Fog gets ConnAttrsOf(config) once; on success the new connection is stored and returned; on a Fog error the result is FogLibvirtConnectionError with Fog's message and the slot stays empty; any other exception from Fog is raised unchanged and the slot stays empty |
| `LibvirtDriver.Driver.GetDomain` | lib/vagrant-libvirt/driver.rb:51-64 | the result is the connection error if connecting fails, else the translated lookup; the slot changes exactly as under Connection |
| `LibvirtDriver.Driver.IsCreated` | lib/vagrant-libvirt/driver.rb:66-69 | the result is Created applied to what get_domain returns |
| `LibvirtDriver.Driver.GetIpAddress` | lib/vagrant-libvirt/driver.rb:71-101 | a lookup error propagates; an absent domain gives nil with no polling; a present domain gives FirstAddress of the polls: it uses every poll when none yields an address, and otherwise stops at the first poll that yields an address or raises, every earlier poll having yielded nothing |
| `LibvirtDriver.Driver.State` | lib/vagrant-libvirt/driver.rb:103-131 | the result is ResolveState of the initial lookup followed by the re-lookups; the number of re-lookups is the position of the first settling observation (all of them when it is Waiting); only the initial lookup can connect |
| `LibvirtDriver.Driver.AwaitShutdown` | lib/vagrant-libvirt/driver.rb:116-130 | the `loop do`, entered with a connection held, ends with Stabilise of the current domain over the translated re-lookups; it makes as many re-lookups as the position of the first observation that is not shutting-down (all of them when Waiting); the connection slot and its attempts are unchanged |
| `LibvirtDriver.SharedConnection` | lib/vagrant-libvirt/driver.rb:20-48 | two drivers sharing the slot: once the first has connected, the second gets the identical connection and Fog is not asked again |

## Left out

- Fog::Compute.new, `servers.get`, `domain.state`, `addresses` and Fog's `reload` are foreign calls. They appear only as inputs: the `fog` function, one ServerLookup per lookup, and the poll snapshots. A domain's state is read once per lookup, as a field of the fetched handle.
- Time: the one-second `sleep` of `state` and the two-second window of `wait_for` are not modelled. The window is the finite sequence of polls made before it closes. `wait_for`'s TimeoutError is the end of that sequence.
- The shutting-down loop of `state` has no bound in the Ruby code. The model sees only finitely many lookups. When they run out while the domain is still shutting down, the result is `Waiting`, meaning the Ruby code would still be sleeping.
- The awk/ARP command string is kept as an opaque constant. Its shell semantics are not modelled.
- Logging (Log4r) and the machine name it prints are not modelled.
- Threads are not modelled. The check-then-set on `@@connection` is treated as single-threaded.
- VIR_ERR_NO_DOMAIN is given libvirt's value, 42. No property depends on the value. The exceptions that leave the driver are reduced to three DriverError variants: `FogLibvirtConnectionError` (the provider's wrapped Fog error), `RetrieveError` (a Libvirt::RetrieveError with its code) and `OtherError` (any other exception, carrying only its message; its class is not modelled).
- Address entries whose value list is nil, and state values that are nil or otherwise lack `to_sym`, would raise NoMethodError in Ruby. Those inputs cannot be expressed in the model. An exception raised by `Fog::Compute.new` that is not a Fog error, by `servers.get` or by a poll is expressible (`FogRaised`, `OtherFailure`, `PollFailed`) and propagates.
- Ruby's `false` as a configured username or password is not modelled. Credentials are `Option<string>`.
