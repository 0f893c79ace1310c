# Gateway registration and DID preload of the SIP server bootstrap

This project models the sequential logic inside `Server.start` of the routr
SIP server (`mod/core/server.js`), with the Java SIP stack, the timer thread,
logging and the REST service replaced by parameters and call-recording stubs:

- **Contact identity**: the server's contact URI is `'sip:' + config.ip`.
- **DID preload**: every DID record is put into the shared location table
  under the key `'tel:' + e164num`, in list order, so the last record with a
  given number wins. The address-factory chain that turns a contact string
  into a URI is the parameter `contactUri`; it yields `None` where the
  factory would throw.
- **Registration task**: each run walks the gateways in list order and calls
  `requestChallenge(username, host, transport)` once for the gateway's host,
  if it has one, and then once per registry host, if it has registries.
  The registration helper is a class that records the calls it receives.
- **Schedule**: the first run after 5000 ms, then every `4 * 60 * 1000` ms,
  which is shorter than the 5-minute gateway lease.

Modules: `Wrappers` (the `Option` type), `Location` (DIDs, keys, the
location table and the preload), `Registration` (gateways, attempts, the
helper stub and the task), `Server` (constants, contact URI, `Start`).

Four behaviours of the code that a reader might not expect:

- The server's own URI goes through the same address factory (lines 62-63)
  before any DID is read. If the factory rejects it, `start()` ends before
  the first `put`.
- A DID whose contact cannot be parsed is not skipped. Lines 66-72 have no
  `try`/`catch`, so the exception ends `start()`. Records already put stay
  in the table, and the registration timer is never scheduled
  (`Location.Preload`, `Server.Start`).
- The refresh period is not derived from a configurable lease. It is the
  constant `proRegExp = 4` minutes (lines 24-25, 100).
- Attempts are issued in a fixed order: gateway by gateway, with the primary
  host before the registries. The model states and proves that order.

## Model

| member | source | states |
|---|---|---|
| Location.Key | mod/core/server.js:67 | the key is `tel:` followed by exactly the DID's number |
| Location.KeyInjective | mod/core/server.js:67 | two DIDs share a key if and only if they share a number |
| Location.LocationTable.Put | mod/core/server.js:71 | `put` overwrites the entry for its key and leaves every other entry alone |
| Location.Preload | mod/core/server.js:66-72 | the loop leaves the table as `Preloaded` of the old table and all DIDs; if a contact does not parse, it stops at the first such record, with the records before it put |
| Location.PreloadedKeys | mod/core/server.js:66-72 | after preload the table's keys are exactly the old keys plus the keys of the listed DIDs; no entry is removed |
| Location.PreloadedNewKeys | mod/core/server.js:67 | every key preload adds starts with `tel:` and the rest is the number of some listed DID |
| Location.PreloadedFrame | mod/core/server.js:66-72 | a key that no listed DID maps to keeps its old entry, or stays absent |
| Location.PreloadedLastWins | mod/core/server.js:66-71 | the entry for a number is the contact URI of the last DID in list order with that number |
| Location.LastSameNumber | mod/core/server.js:66 | gives the last index in iteration order whose DID has a given record's number |
| Location.PreloadedEveryDid | mod/core/server.js:66-71 | every listed DID has an entry, holding the contact URI of the last DID with the same number |
| Location.PreloadedAppend | mod/core/server.js:66-72 | preloading two lists one after the other gives the same table as preloading their concatenation |
| Registration.RegistryAttempts | mod/core/server.js:89-93 | the registry loop issues exactly as many attempts as the gateway has registries |
| Registration.RegistryAttemptsAt | mod/core/server.js:89-92 | the `j`-th registry attempt is against the `j`-th registry, with the gateway's username and transport |
| Registration.TickAttemptsSnoc | mod/core/server.js:84-94 | one more gateway at the end of the list adds exactly its attempts at the end of the tick |
| Registration.GatewayAttemptsShape | mod/core/server.js:86-93 | per tick a gateway gets `(host defined ? 1 : 0) + (registries defined ? number of registries : 0)` attempts; the host attempt comes first, then the registries in list order; each attempt has the gateway's username and transport, and its host is the gateway's host or one of its registries |
| Registration.MissingHostKeepsRegistries | mod/core/server.js:86-87 | a gateway without a host still gets exactly its registry attempts: the missing host skips only the host attempt, and the `continue` at line 87 fires only when the registries are undefined |
| Registration.TickAttemptsAppend | mod/core/server.js:84-94 | the attempts of a concatenated gateway list are the attempts of the first part followed by those of the second |
| Registration.GatewayBlock | mod/core/server.js:84-94 | each gateway's attempts form one contiguous block of the tick, and the next gateway's block starts right after it |
| Registration.OffsetsOrdered | mod/core/server.js:84 | an earlier gateway's block ends before a later gateway's block begins |
| Registration.TickAttemptsCount | mod/core/server.js:84-93 | a tick issues as many calls as the per-gateway counts add up to |
| Registration.TickAttemptsBelong | mod/core/server.js:84-93 | every attempt of a tick belongs to some listed gateway: it carries that gateway's username and transport, and its host is the gateway's host or one of its registries |
| Registration.RegistryHelper.RequestChallenge | mod/core/server.js:92 | each call appends its username, host and transport to the helper's record |
| Registration.RegisterGateway | mod/core/server.js:85-93 | the loop body for one gateway issues exactly that gateway's attempts, in order |
| Registration.RunRegisterTask | mod/core/server.js:82-95 | one run of the task issues exactly `TickAttempts(gateways)`, in order, and nothing else |
| Server.ScheduleConstants | mod/core/server.js:100 | the period `proRegExp * 60 * 1000` is 240000 ms, strictly less than the 300000 ms lease; the initial delay is 5000 ms |
| Server.RefreshedWithinLease | mod/core/server.js:24-25 | from the first run on, every instant is less than one lease after the latest nominal run; this protects the binding only while the runs keep happening |
| Server.ServerUri | mod/core/server.js:61 | the contact URI is `sip:` followed by exactly the local address |
| Server.Start | mod/core/server.js:60-100 | start builds the contact URI and aborts, with the table untouched, exactly when the address factory rejects it; otherwise it runs the preload, and on success sets up the timer with delay 5000 ms and period 240000 ms; a DID that does not parse aborts start before the timer is set up |

## Left out

- SIP stack construction, `Properties`, the 1 MiB message size setting,
  listening points and provider wiring (lines 32-58): calls into the Java
  SIP stack with no logic of their own.
- `InetAddress.getLocalHost()` (lines 14-15): host I/O; `config.ip` is an
  input string.
- `java.util.Timer` threading and periodic firing (line 100): concurrency.
  One run is one call of `RunRegisterTask`. The timer appears only as its
  delay and period. `TickTime` gives nominal run times. `schedule` is
  fixed-delay, so late runs shift later runs; the model does not capture that.
- The internals of `RegistryHelper.requestChallenge` (the REGISTER exchange),
  `Processor`, `Originate`, `ContextStorage` and `RestService`: external
  collaborators, not part of this model. The helper only records calls.
- Exceptions inside the registration task: the source has no `try`/`catch`.
  `java.util.Timer` runs its tasks on one thread. An exception that escapes
  `run` kills that thread, which cancels this run's remaining attempts and
  every later run. `requestChallenge` can throw, and so can line 85, with a
  `TypeError` for a gateway without `metadata`. The model assumes neither
  happens: the helper stub never throws, and a gateway is assumed to have
  `metadata.name`. Nothing in the source guarantees either.
- Logging (lines 28-30, 85, 90). Gateway `metadata`, which only the log lines
  read, is not modelled.
- `null` values for `host` or `registries`: only defined and undefined are
  modelled (the guards compare with `undefined` only).
- `stop()` (lines 106-111): `restService.stop`, `sipStack.stop` and `exit(0)`
  are process lifecycle.
- The internals of the address and header factories: `contactUri` is an
  arbitrary function, so every property holds whatever the factories return.
