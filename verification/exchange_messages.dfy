/** The envelope of everything the current server generation exchanges
    with its clients (`exchange_messages.rs` of `lamarrs-utils`). The
    heartbeat and scene variants are those the connection handler matches
    on; the enum declaration itself lists only the first five. */
module ExchangeMessages {
  import opened LamarrsUtils
  import opened ActionMessages

  /** Positive replies to a client request. */
  datatype AckResult = Success | UpdatedSubscription | UpdatedLocation

  /** Negative replies to a client request. */
  datatype NackResult = AlreadySubscribed | NotSubscribed | Failed

  datatype ExchangeMessage =
    | Ack(ack: AckResult)
    | Nack(nack: NackResult)
    | Request(request: Event)
    | Update(update: Event)
    | Error(description: ErrorDescription)
    | Heartbeat
    | HeartbeatAck
    | NextScene
    | RetriggerScene
    | Scene(scene: Event)

  /** The derived `Display` of `ExchangeMessage`: the variant name. */
  function ExchangeMessageName(m: ExchangeMessage): (n: string)
    ensures n == "Ack" <==> m.Ack?
    ensures n == "Nack" <==> m.Nack?
    ensures n == "Request" <==> m.Request?
    ensures n == "Update" <==> m.Update?
    ensures n == "Error" <==> m.Error?
    ensures n == "Heartbeat" <==> m.Heartbeat?
    ensures n == "HeartbeatAck" <==> m.HeartbeatAck?
    ensures n == "NextScene" <==> m.NextScene?
    ensures n == "RetriggerScene" <==> m.RetriggerScene?
    ensures n == "Scene" <==> m.Scene?
  {
    match m
    case Ack(_) => "Ack"
    case Nack(_) => "Nack"
    case Request(_) => "Request"
    case Update(_) => "Update"
    case Error(_) => "Error"
    case Heartbeat => "Heartbeat"
    case HeartbeatAck => "HeartbeatAck"
    case NextScene => "NextScene"
    case RetriggerScene => "RetriggerScene"
    case Scene(_) => "Scene"
  }

  /** The derived `Display` of `Event`: the variant name. */
  function EventName(e: Event): (n: string)
    ensures n == "Register" <==> e.Register?
    ensures n == "SuscribeToService" <==> e.SuscribeToService?
    ensures n == "UnsubscribeFromService" <==> e.UnsubscribeFromService?
    ensures n == "UpdateLocation" <==> e.UpdateLocation?
    ensures n == "PerformAction" <==> e.PerformAction?
  {
    match e
    case Register(_) => "Register"
    case SuscribeToService(_, _) => "SuscribeToService"
    case UnsubscribeFromService(_, _) => "UnsubscribeFromService"
    case UpdateLocation(_) => "UpdateLocation"
    case PerformAction(_) => "PerformAction"
  }
}
