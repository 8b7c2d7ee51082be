/** The columns of the accounts table (backend/ent/account/account.go). */
module AccountSchema {

  /** The 32 columns in table order, and names the entity does not know. */
  datatype Column =
    | ID | CreatedAt | UpdatedAt | DeletedAt | Name | Notes | Platform | Type | Credentials | Extra
    | ProxyID | ProxyFallbackOriginID | Concurrency | LoadFactor | Priority | RateMultiplier | Status
    | ErrorMessage | LastUsedAt | ExpiresAt | AutoPauseOnExpired | Schedulable | RateLimitedAt
    | RateLimitResetAt | OverloadUntil | TempUnschedulableUntil | TempUnschedulableReason
    | SessionWindowStart | SessionWindowEnd | SessionWindowStatus | ParentAccountID | QuotaDimension
    | Other(name: string)

  const COLUMNS: seq<Column> := [
    ID, CreatedAt, UpdatedAt, DeletedAt, Name, Notes, Platform, Type, Credentials, Extra,
    ProxyID, ProxyFallbackOriginID, Concurrency, LoadFactor, Priority, RateMultiplier, Status,
    ErrorMessage, LastUsedAt, ExpiresAt, AutoPauseOnExpired, Schedulable, RateLimitedAt,
    RateLimitResetAt, OverloadUntil, TempUnschedulableUntil, TempUnschedulableReason,
    SessionWindowStart, SessionWindowEnd, SessionWindowStatus, ParentAccountID, QuotaDimension]

  /** A value as the database driver delivers it. */
  datatype Cell =
    | Null
    | IntCell(i: int)
    | RealCell(x: real)
    | TextCell(s: string)
    | BoolCell(b: bool)
    | TimeCell(t: int)
    | BytesCell(bytes: string)
}
