/** The message types of the first server generation (`enums.rs` and
    `messages.rs` of `lamarrs-utils`) and the `Display` names of its enums.
    Its `RelativeLocation` has the same variants and names as the one of
    `lib.rs` and is modelled by that one. */
module Enums {
  import opened LamarrsUtils
  import opened MidiEvents

  /** Services of the first generation. */
  datatype Service = Subtitle | Color

  datatype Color = Red | Blue | White | Black

  datatype GatewayError = UnregisteredSubscriber

  datatype CloseConnectionReason = SubscriberRequest | GatewayRequest | Unexpected

  datatype SubscribeResult = Success | AlreadySubscribed | NotSubscribed | UpdatedSubscription | Failed

  datatype RegisterResult = Success | AlreadyRegistered | Failed

  /** An `ArrayString<35>`: at most 35 bytes of UTF-8. */
  type String35 = s: string | FitsIn(s, 35) witness ""

  /** Subtitle line of the first generation. */
  datatype Subtitle = Subtitle(subtitle: String35)

  datatype Suscribe = Suscribe(uuid: Uuid, service: Service, location: RelativeLocation)

  /** Messages a subscriber sends to the gateway. */
  datatype SubscriberMessage =
    | Register(id: Uuid, location: RelativeLocation)
    | Subscribe(service: Service)
    | UpdateLocation(location: RelativeLocation)
    | CloseConnection(reason: CloseConnectionReason)

  /** Messages the gateway sends to a subscriber. */
  datatype GatewayMessage =
    | RegisterResult(registerResult: RegisterResult)
    | Suscribe(suscribe: Suscribe)
    | SubscribeResult(subscribeResult: SubscribeResult)
    | Subtitle(subtitle: Subtitle)
    | Color(color: Color)
    | Midi(event: MidiEvent)
    | Error(error: GatewayError)

  /** `Display` of `Color`: the lower-case colour name. */
  function ColorName(c: Color): (s: string)
    ensures s == "red" <==> c == Red
    ensures s == "blue" <==> c == Blue
    ensures s == "white" <==> c == White
    ensures s == "black" <==> c == Black
  {
    match c
    case Red => "red"
    case Blue => "blue"
    case White => "white"
    case Black => "black"
  }

  /** `Display` of `Service`. */
  function ServiceName(s: Service): (n: string)
    ensures n == "Subtitle" <==> s == Service.Subtitle
    ensures n == "Color" <==> s == Service.Color
  {
    match s
    case Subtitle => "Subtitle"
    case Color => "Color"
  }

  /** `Display` of `CloseConnectionReason`: the variant name, its words
      separated by a space. */
  function CloseConnectionReasonName(r: CloseConnectionReason): (n: string)
    ensures n == "Subscriber Request" <==> r == SubscriberRequest
    ensures n == "Gateway Request" <==> r == GatewayRequest
    ensures n == "Unexpected" <==> r == Unexpected
  {
    match r
    case SubscriberRequest => "Subscriber Request"
    case GatewayRequest => "Gateway Request"
    case Unexpected => "Unexpected"
  }

  /** `Display` of `GatewayError`. */
  function GatewayErrorName(e: GatewayError): (n: string)
    ensures n == "UnregisteredSubscriber" <==> e == UnregisteredSubscriber
  {
    match e
    case UnregisteredSubscriber => "UnregisteredSubscriber"
  }

  /** Distinct variants display differently, so each name identifies its
      variant. */
  lemma DisplayNamesInjective()
    ensures forall a: Color, b: Color :: ColorName(a) == ColorName(b) ==> a == b
    ensures forall a: RelativeLocation, b: RelativeLocation :: LocationName(a) == LocationName(b) ==> a == b
    ensures forall a: Service, b: Service :: ServiceName(a) == ServiceName(b) ==> a == b
    ensures forall a: CloseConnectionReason, b: CloseConnectionReason ::
      CloseConnectionReasonName(a) == CloseConnectionReasonName(b) ==> a == b
  {
    assert "red" != "blue" && "red" != "white" && "red" != "black";
    assert "blue" != "white" && "blue" != "black" && "white" != "black";
    assert "Subscriber Request" != "Gateway Request";
    assert "Subscriber Request" != "Unexpected" && "Gateway Request" != "Unexpected";
  }
}
