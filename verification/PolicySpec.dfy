/** The authored policy document and its validation. */
module PolicySpec {
  import opened Wrappers
  import opened Net
  import Bytes
  import Text

  type Uuid = nat
  type u8 = Bytes.byte
  type u16 = Bytes.u16
  type u32 = Bytes.u32

  datatype SpecError =
    | Version(v: nat)
    | EmptySelector(which: string)
    | CidrInSource
    | PortsWithoutL4Protocol
    | Timezone(name: string)
    | Time(text: string)
    | NoDays
    | Priority

  datatype Effect = Allow | Deny

  datatype Protocol = Tcp | Udp | Icmp | Any

  datatype PortRange = PortRange(start: u16, end: u16) {
    predicate Contains(port: u16) { start <= port <= end }
  }

  /** An empty set of ranges means every port. */
  datatype PortSet = PortSet(ranges: seq<PortRange>) {
    predicate IsAll() { ranges == [] }

    predicate Contains(port: u16) {
      ranges == [] || exists r | r in ranges :: r.Contains(port)
    }
  }

  datatype L4Rule = L4Rule(protocol: Protocol, ports: PortSet)

  datatype Selector = Selector(pods: seq<Uuid>, devices: seq<Uuid>, deviceClasses: seq<Uuid>,
                               cidrs: seq<IpNet>, any: bool) {
    predicate IsEmpty() {
      pods == [] && devices == [] && deviceClasses == [] && cidrs == [] && !any
    }
  }

  datatype AttestationRequirement = AnyState | Verified

  datatype Posture = Posture(firewallEnabled: Option<bool>, diskEncrypted: Option<bool>,
                             screenLockEnabled: Option<bool>, minOsVersion: Option<string>,
                             maxHoursSinceUpdate: Option<u32>)

  /** Monday is day 0. */
  type Weekday = d: nat | d < 7

  datatype TimeWindow = TimeWindow(start: string, end: string, days: seq<Weekday>, timezone: string)

  datatype Conditions = Conditions(timeWindow: Option<TimeWindow>, posture: Option<Posture>,
                                   attestation: Option<AttestationRequirement>, maxRiskScore: Option<u8>)

  datatype PolicySpec = PolicySpec(version: u8, effect: Effect, priority: int, source: Selector,
                                   destination: Selector, l4: seq<L4Rule>, conditions: Conditions)

  // ---------- time zones ----------

  /** A zone is a starting UTC offset and the instants at which it changes, in seconds. */
  datatype Zone = Zone(first: int, changes: seq<(int, int)>)

  type TzDb = map<string, Zone>

  // ---------- validation ----------

  /** Minutes after midnight of an "HH:MM" text. */
  function ParseHhmm(s: string): (r: Result<nat, SpecError>)
    ensures r.Ok? ==> r.value < 1440
  {
    var rest := Text.After(s, ':');
    if rest.None? then Err(Time(s)) else
    var h := Text.ParseInt(Text.Before(s, ':'), 0, 0xffff_ffff);
    var m := Text.ParseInt(rest.value, 0, 0xffff_ffff);
    if h.None? || m.None? || h.value > 23 || m.value > 59 then Err(Time(s))
    else Ok(h.value * 60 + m.value)
  }

  predicate PortsFitProtocol(rule: L4Rule) {
    rule.ports.IsAll() || rule.protocol.Tcp? || rule.protocol.Udp?
  }

  function ValidateWindow(tz: TzDb, w: TimeWindow): Result<(), SpecError> {
    if w.days == [] then Err(NoDays)
    else if w.timezone !in tz then Err(Timezone(w.timezone))
    else if ParseHhmm(w.start).Err? then Err(ParseHhmm(w.start).error)
    else if ParseHhmm(w.end).Err? then Err(ParseHhmm(w.end).error)
    else Ok(())
  }

  function Validate(tz: TzDb, p: PolicySpec): (r: Result<(), SpecError>) {
    if p.version != 2 then Err(Version(p.version))
    else if !(0 <= p.priority <= 10000) then Err(Priority)
    else if p.source.IsEmpty() then Err(EmptySelector("source"))
    else if p.destination.IsEmpty() then Err(EmptySelector("destination"))
    else if p.source.cidrs != [] then Err(CidrInSource)
    else if exists rule | rule in p.l4 :: !PortsFitProtocol(rule) then Err(PortsWithoutL4Protocol)
    else if p.conditions.timeWindow.Some? then ValidateWindow(tz, p.conditions.timeWindow.value)
    else Ok(())
  }
}
