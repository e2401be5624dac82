/** The closed enumerations and records of api/models.py, with the default
    values a new record takes. Datetimes are whole seconds (`nat`). */
module Models {
  import opened Wrappers

  /** The opaque key/value bag attached to services and heartbeats. */
  type Metadata = map<string, string>

  /** Kind of monitored service; a display tag only. */
  datatype ServiceType = CloudService | LocalJob {
    /** The enum's string value. */
    function Value(): string
    {
      match this
      case CloudService => "cloud_service"
      case LocalJob => "local_job"
    }
  }

  /** Lookup of an enum member by its string value (`ServiceType(s)`). */
  function ParseServiceType(s: string): (r: Option<ServiceType>)
    ensures r.Some? ==> r.value.Value() == s
    ensures r.None? ==> forall t: ServiceType :: t.Value() != s
  {
    if s == "cloud_service" then Some(CloudService)
    else if s == "local_job" then Some(LocalJob)
    else None
  }

  /** The four-valued health classification. */
  datatype ServiceStatus = Unknown | Alive | Down | Dead {
    /** The enum's string value, as it appears in alert messages. */
    function Value(): string
    {
      match this
      case Unknown => "unknown"
      case Alive => "alive"
      case Down => "down"
      case Dead => "dead"
    }
  }

  /** Lookup of an enum member by its string value (`ServiceStatus(s)`). */
  function ParseStatus(s: string): (r: Option<ServiceStatus>)
    ensures r.Some? ==> r.value.Value() == s
    ensures r.None? ==> forall t: ServiceStatus :: t.Value() != s
  {
    if s == "unknown" then Some(Unknown)
    else if s == "alive" then Some(Alive)
    else if s == "down" then Some(Down)
    else if s == "dead" then Some(Dead)
    else None
  }

  /** Distinct statuses have distinct string values, so the value names the
      status: the enum round-trips through its string form. */
  lemma StatusValueRoundTrip(t: ServiceStatus)
    ensures ParseStatus(t.Value()) == Some(t)
  {
  }

  lemma ServiceTypeValueRoundTrip(t: ServiceType)
    ensures ParseServiceType(t.Value()) == Some(t)
  {
  }

  /** Service configuration and current status. `updatedAt` is optional
      because a stored record may lack it; a new record carries the
      creation time. */
  datatype Service = Service(
    serviceKey: string,
    serviceType: Option<ServiceType>,
    expectedPeriod: Option<int>,
    deadAfter: Option<int>,
    status: ServiceStatus,
    updatedAt: Option<nat>,
    metadata: Option<Metadata>)

  /** A service record built from its key alone, at time `now`. */
  function NewService(serviceKey: string, now: nat): (s: Service)
    ensures s.serviceKey == serviceKey && s.status == Alive
    ensures s.serviceType == None && s.expectedPeriod == None
    ensures s.deadAfter == None && s.metadata == None
    ensures s.updatedAt == Some(now)
  {
    Service(serviceKey, None, None, None, Alive, Some(now), None)
  }

  /** Record of one status change. `id` is the store's identifier. */
  datatype StateTransition = StateTransition(
    id: Option<string>,
    serviceKey: string,
    fromState: ServiceStatus,
    toState: ServiceStatus,
    timestamp: nat,
    alerted: bool,
    alertMessage: Option<string>)

  /** A transition record built from its required fields, at time `now`. */
  function NewTransition(serviceKey: string, fromState: ServiceStatus, toState: ServiceStatus, now: nat): (t: StateTransition)
    ensures t.serviceKey == serviceKey && t.fromState == fromState && t.toState == toState
    ensures t.id == None && t.timestamp == now
    ensures !t.alerted && t.alertMessage == None
  {
    StateTransition(None, serviceKey, fromState, toState, now, false, None)
  }
}
