/** What identifies a seat: a booking and a user. */
module Seats {
  type Id = string

  type User = string

  type SeatKey = (Id, User)
}
