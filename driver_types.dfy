/**
 * The driver app's view of a parking location and of the device position.
 * Reviews are not part of this model; the rating is kept in tenths of a
 * star so that its whole and half stars are exact.
 */
module DriverTypes {
  /** How full a location is, as the mock data and the UI label it. */
  datatype Availability = High | Medium | Low

  /**
   * One location on the map. `distance` and `pricePerHour` are display
   * strings such as "0.8 km" and "₹40".
   */
  datatype DriverSpot = DriverSpot(
    id: string,
    name: string,
    address: string,
    distance: string,
    pricePerHour: string,
    spotsAvailable: int,
    totalSpots: int,
    availability: Availability,
    lat: real,
    lng: real,
    phone: string,
    ratingTenths: int,
    operatingHours: string)

  /** A device position in degrees. */
  datatype UserLocation = UserLocation(lat: real, lng: real)
}
