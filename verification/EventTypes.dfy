// Events on the wire and on the bus. Payloads do not matter to framing or to the drop policy.
module EventTypes {

  datatype EventKind =
    | TickKind | L2DeltaKind | SnapshotKind | FillKind | OrderStatusKind | RejectKind | HeartbeatKind
    | ReconnectKind | StateSyncKind | HaltKind | CancelAckKind | CancelRejectKind

  datatype Event = Event(symbol: nat, tsSrc: nat, seqNo: nat, kind: EventKind)

  datatype QosPriority = Critical | High | Medium | Low

  function PriorityOf(e: Event): QosPriority {
    match e.kind
    case FillKind => Critical
    case OrderStatusKind => Critical
    case RejectKind => Critical
    case CancelAckKind => Critical
    case CancelRejectKind => Critical
    case TickKind => High
    case L2DeltaKind => Medium
    case SnapshotKind => Low
    case HeartbeatKind => Low
    case ReconnectKind => Critical
    case StateSyncKind => Critical
    case HaltKind => Critical
  }
}
