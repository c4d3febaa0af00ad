/** The journal's record types (internal/event/record.go). */
module Events {
  import opened Text

  /** Nanoseconds since the zero `time.Time`; 0 is the instant `IsZero` accepts. */
  type Time = int

  const ZERO_TIME: Time := 0

  datatype RecordType = Event | Baseline | Gap | CoverageChange | AuditCorrelation | Snapshot | Checkpoint

  /** `Untyped` is the empty watch type of records that are not watch events. */
  datatype WatchType = Added | Modified | Deleted | Bookmark | Error | Untyped

  function WatchText(w: WatchType): string {
    match w
    case Added => "ADDED"
    case Modified => "MODIFIED"
    case Deleted => "DELETED"
    case Bookmark => "BOOKMARK"
    case Error => "ERROR"
    case Untyped => ""
  }

  /** The namespace/name key under which the reducer stores an object. */
  function ObjectKeyOf(namespace: string, name: string): string {
    if namespace == "" then name else namespace + ['/'] + name
  }

  datatype ResourceRef = ResourceRef(
    group: string, version: string, kind: string,
    namespace: string, name: string, uid: string, resourceVersion: string)
  {
    function ObjectKey(): string { ObjectKeyOf(namespace, name) }
  }

  datatype GapInfo = GapInfo(fromRV: string, toRV: string, reason: string, detectedAt: Time)

  datatype Record = Record(
    clusterId: string, streamId: string, rtype: RecordType, eventId: string,
    ingestSeq: int, observedAt: Time, watchType: WatchType, synthetic: bool,
    resource: ResourceRef, payload: string,
    gap: Option<GapInfo>,
    coverage: Option<bool>,       // the new availability of a coverage change
    checkpoint: Option<string>)   // the bookmarked resource version

  /** With no '/' in the parts, the object key names one namespace and one name. */
  lemma ObjectKeyIsInjective(a: ResourceRef, b: ResourceRef)
    requires Lacks(a.namespace, '/') && Lacks(a.name, '/') && Lacks(b.namespace, '/') && Lacks(b.name, '/')
    requires a.ObjectKey() == b.ObjectKey()
    ensures a.namespace == b.namespace && a.name == b.name
  {
    if a.namespace != "" { FirstCutIsInjective(a.namespace, a.name, b.namespace, b.name, '/'); }
  }
}
