/** The failures the controllers report back to the page that called them. */
module Errors {
  import Requests

  datatype Error =
    /** Input validation rejected these fields (Laravel's `validate`). */
    | Invalid(fields: set<string>)
    /** "Employee not found or inactive." */
    | EmployeeNotFound
    /** "Requested quantity exceeds remaining quota. Available: N gallons." */
    | QuotaExceeded(available: int)
    /** "Request not found or not ready for pickup.": wrong owner and wrong status alike. */
    | RequestNotFound
    /** No stored request has the id in the route; binding the request by id answers this with a 404. */
    | NoSuchRecord
    /** "Only pending requests can be approved." / "Only approved requests can be marked as ready." */
    | InvalidTransition(required: Requests.Status)
}
