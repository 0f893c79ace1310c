/** `Server.start` (mod/core/server.js, lines 24-25 and 27-104) with the SIP
    stack, the listeners, logging and the REST service taken away: the
    server's contact URI, the DID preload and the registration schedule. */
module Server {
  import opened Wrappers
  import Location

  /** Gateway registrations expire after five minutes; the server
      re-registers every `ProRegExp` minutes. */
  const ProRegExp: nat := 4
  const GatewayLeaseMinutes: nat := 5

  /** The delay before the first run of the registration task. */
  const InitialDelayMs: nat := 5000

  const SipPrefix: string := "sip:"

  function MinutesToMs(minutes: nat): nat
  {
    minutes * 60 * 1000
  }

  /** The period handed to the timer: `proRegExp * 60 * 1000`. */
  function RegistrationPeriodMs(): nat
  {
    MinutesToMs(ProRegExp)
  }

  function GatewayLeaseMs(): nat
  {
    MinutesToMs(GatewayLeaseMinutes)
  }

  /** The schedule constants: a 240000 ms period, strictly shorter than the
      300000 ms lease, and a first run after 5000 ms. */
  lemma ScheduleConstants()
    ensures RegistrationPeriodMs() == 240000
    ensures GatewayLeaseMs() == 300000
    ensures RegistrationPeriodMs() < GatewayLeaseMs()
    ensures InitialDelayMs == 5000 && InitialDelayMs < RegistrationPeriodMs()
  {
  }

  /** The nominal start of the `n`-th run of the registration task. */
  function TickTime(n: nat): nat
  {
    InitialDelayMs + n * RegistrationPeriodMs()
  }

  /** From the first run on, every instant lies less than one lease after the
      latest nominal run: a binding renewed at every run does not expire as
      long as the runs keep happening (an exception escaping a run stops the
      timer thread, and with it every later run). */
  lemma RefreshedWithinLease(t: nat)
    requires InitialDelayMs <= t
    ensures exists n: nat :: TickTime(n) <= t < TickTime(n) + GatewayLeaseMs()
  {
    var p := RegistrationPeriodMs();
    var n: nat := (t - InitialDelayMs) / p;
    assert n * p <= t - InitialDelayMs < n * p + p;
    assert TickTime(n) <= t < TickTime(n) + GatewayLeaseMs();
  }

  /** The server's own contact address: `'sip:' + ip`. */
  function ServerUri(ip: string): (uri: string)
    ensures |uri| == |SipPrefix| + |ip|
    ensures uri[..|SipPrefix|] == SipPrefix && uri[|SipPrefix|..] == ip
  {
    SipPrefix + ip
  }

  /** The timer schedule of the registration task: first delay and period. */
  datatype Schedule = Schedule(delayMs: nat, periodMs: nat)

  /** The part of the configuration that `start` reads. */
  datatype Config = Config(ip: string, dids: seq<Location.Did>)

  /** A started server; a start aborted because the address factory rejects
      the server's own contact URI; or one aborted by the DID record whose
      contact could not be parsed. */
  datatype StartResult =
    | Started(contact: string, registration: Schedule)
    | ContactAborted
    | Aborted(badDid: nat)

  /** `start` without the stack: the contact URI and its contact header, then
      the preload, then the registration schedule. The same address-factory
      chain parses the server's URI and the DID contacts. If the server's URI
      does not parse, start ends before any `put`; a failing DID ends it
      before the schedule is set up, with earlier records in the table. */
  method Start(config: Config, table: Location.LocationTable, contactUri: Location.ContactParser)
    returns (result: StartResult)
    modifies table
    ensures result.ContactAborted? <==> contactUri(ServerUri(config.ip)).None?
    ensures result.ContactAborted? ==> table.entries == old(table.entries)
    ensures result.Started? ==> Location.AllParse(config.dids, contactUri)
    ensures result.Started? ==>
      table.entries == Location.Preloaded(old(table.entries), config.dids, contactUri)
    ensures result.Started? ==> result.contact == ServerUri(config.ip)
    ensures result.Started? ==> result.registration == Schedule(InitialDelayMs, RegistrationPeriodMs())
    ensures result.Aborted? ==>
      && result.badDid < |config.dids|
      && contactUri(config.dids[result.badDid].contact).None?
      && Location.AllParse(config.dids[..result.badDid], contactUri)
      && table.entries == Location.Preloaded(old(table.entries), config.dids[..result.badDid], contactUri)
  {
    var serverUri := SipPrefix + config.ip;
    if contactUri(serverUri).None? {
      return ContactAborted;
    }
    var failed := Location.Preload(table, config.dids, contactUri);
    if failed.Some? {
      return Aborted(failed.value);
    }
    return Started(serverUri, Schedule(InitialDelayMs, ProRegExp * 60 * 1000));
  }
}
