/** Normalized events and the vocabulary the components share. */
module Events {
  import opened Common

  datatype Source = Cloudflare | Gateway | Nginx | App | Ssh | Audit | OtherSource(name: string)

  datatype Severity = Unset | Low | Medium | High | Critical

  function Rank(s: Severity): nat {
    match s
    case Critical => 4
    case High => 3
    case Medium => 2
    case Low => 1
    case Unset => 0
  }

  /** Critical, high, medium, low, unset, in that order. */
  predicate AsSevere(a: Severity, b: Severity) {
    match b
    case Critical => a.Critical?
    case High => a.Critical? || a.High?
    case Medium => a.Critical? || a.High? || a.Medium?
    case Low => !a.Unset?
    case Unset => true
  }

  lemma RankIsSeverity(a: Severity, b: Severity)
    ensures Rank(a) >= Rank(b) <==> AsSevere(a, b)
  {
  }

  datatype Geo = Geo(countryCode: string, asn: string)
  {
    predicate IsZero() { countryCode == "" && asn == "" }
  }

  const TAG_WAF_BLOCK := "waf_block"
  const TAG_BRUTE_FORCE := "brute_force"
  const TAG_SQLI := "sqli"
  const TAG_WEBSHELL := "webshell"
  const TAG_AUTH_FAILURE := "auth_failure"
  const TAG_SCAN := "scan"

  /** What an event says at one moment. */
  datatype EventData = EventData(
    id: string, timestamp: Time, source: Source, asset: string, srcIP: string, srcPort: int,
    httpMethod: string, path: string, status: int, userAgent: string, user: string,
    tags: seq<string>, geo: Option<Geo>)

  /** The event object that the edge, the detection windows, the ring and the hub share.
      Only its status and tags are ever written after it has been built. */
  class NormalizedEvent {
    const id: string
    const timestamp: Time
    const source: Source
    const asset: string
    const srcIP: string
    const srcPort: int
    const httpMethod: string
    const path: string
    const userAgent: string
    const user: string
    const geo: Option<Geo>
    var status: int
    var tags: seq<string>

    constructor (d: EventData)
      ensures View() == d
    {
      id, timestamp, source, asset := d.id, d.timestamp, d.source, d.asset;
      srcIP, srcPort, httpMethod, path := d.srcIP, d.srcPort, d.httpMethod, d.path;
      userAgent, user, geo := d.userAgent, d.user, d.geo;
      status, tags := d.status, d.tags;
    }

    function View(): EventData
      reads this
    {
      EventData(id, timestamp, source, asset, srcIP, srcPort, httpMethod, path, status, userAgent, user, tags, geo)
    }
  }
}
