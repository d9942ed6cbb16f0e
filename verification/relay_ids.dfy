/** Identifiers the relay only compares: hashes, random ids and endpoints. */
module RelayIds {
  type TokenId(==, !new)
  type RoomId(==, !new)
  type Endpoint(==, !new)
}
