/**
 Validation of a ride request (internal/ride/validation.go). Texts are as trimming and upper-casing have left them.
 */
module RideRequest {
  import opened Prelude
  import opened Fare

  datatype Coordinate = Coordinate(latitude: real, longitude: real, address: string)

  datatype CreateRideRequest =
    CreateRideRequest(passengerId: string, pickup: Coordinate, destination: Coordinate, rideType: string)

  /** In the order in which the requirements are checked. */
  datatype RequestError =
    | PassengerIdRequired
    | PickupAddressRequired
    | DestinationAddressRequired
    | InvalidPickupLatitude
    | InvalidPickupLongitude
    | InvalidDestinationLatitude
    | InvalidDestinationLongitude
    | SamePickupAndDestination
    | RideTypeRequired
    | UnknownRideType

  function Position(e: RequestError): nat {
    match e
    case PassengerIdRequired => 0
    case PickupAddressRequired => 1
    case DestinationAddressRequired => 2
    case InvalidPickupLatitude => 3
    case InvalidPickupLongitude => 4
    case InvalidDestinationLatitude => 5
    case InvalidDestinationLongitude => 6
    case SamePickupAndDestination => 7
    case RideTypeRequired => 8
    case UnknownRideType => 9
  }

  /** The request breaks the requirement that this error stands for. */
  predicate Breaks(request: CreateRideRequest, e: RequestError) {
    match e
    case PassengerIdRequired => request.passengerId == ""
    case PickupAddressRequired => request.pickup.address == ""
    case DestinationAddressRequired => request.destination.address == ""
    case InvalidPickupLatitude => !(-90.0 <= request.pickup.latitude <= 90.0)
    case InvalidPickupLongitude => !(-180.0 <= request.pickup.longitude <= 180.0)
    case InvalidDestinationLatitude => !(-90.0 <= request.destination.latitude <= 90.0)
    case InvalidDestinationLongitude => !(-180.0 <= request.destination.longitude <= 180.0)
    case SamePickupAndDestination =>
      && request.pickup.latitude == request.destination.latitude
      && request.pickup.longitude == request.destination.longitude
    case RideTypeRequired => request.rideType == ""
    case UnknownRideType => RatesFor(request.rideType).None?
  }

  /** No requirement is broken. */
  ghost predicate Acceptable(request: CreateRideRequest) {
    forall e: RequestError :: !Breaks(request, e)
  }

  /** The error is that of the first broken requirement; without one the request is accepted. */
  method ValidateCreateRideRequest(request: CreateRideRequest) returns (error: Option<RequestError>)
    ensures error.Some? ==>
              Breaks(request, error.value) && forall e :: Breaks(request, e) ==> Position(error.value) <= Position(e)
    ensures error.None? <==> Acceptable(request)
  {
    if request.passengerId == "" {
      assert Breaks(request, PassengerIdRequired);
      return Some(PassengerIdRequired);
    }
    if request.pickup.address == "" {
      assert Breaks(request, PickupAddressRequired);
      return Some(PickupAddressRequired);
    }
    if request.destination.address == "" {
      assert Breaks(request, DestinationAddressRequired);
      return Some(DestinationAddressRequired);
    }
    if request.pickup.latitude < -90.0 || request.pickup.latitude > 90.0 {
      assert Breaks(request, InvalidPickupLatitude);
      return Some(InvalidPickupLatitude);
    }
    if request.pickup.longitude < -180.0 || request.pickup.longitude > 180.0 {
      assert Breaks(request, InvalidPickupLongitude);
      return Some(InvalidPickupLongitude);
    }
    if request.destination.latitude < -90.0 || request.destination.latitude > 90.0 {
      assert Breaks(request, InvalidDestinationLatitude);
      return Some(InvalidDestinationLatitude);
    }
    if request.destination.longitude < -180.0 || request.destination.longitude > 180.0 {
      assert Breaks(request, InvalidDestinationLongitude);
      return Some(InvalidDestinationLongitude);
    }
    if request.pickup.latitude == request.destination.latitude
        && request.pickup.longitude == request.destination.longitude {
      assert Breaks(request, SamePickupAndDestination);
      return Some(SamePickupAndDestination);
    }
    if request.rideType == "" {
      assert Breaks(request, RideTypeRequired);
      return Some(RideTypeRequired);
    }
    match request.rideType {
      case "ECONOMY" => return None;
      case "PREMIUM" => return None;
      case "XL" => return None;
      case _ =>
        assert Breaks(request, UnknownRideType);
        return Some(UnknownRideType);
    }
  }
}
