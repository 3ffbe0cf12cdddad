/**
 The columns of an account and what the generated code says about each: the Go type of the mutation's pointer,
 the field type createSpec declares, the scan destination of scanValues and the type assertion of assignValues.
 Each table is transcribed from its own place in the source, so that their agreement is a theorem.
 */
module AccountFields {
  import opened Wrappers

  datatype Column =
    | ID | CreatedAt | UpdatedAt | DeletedAt | Name | Notes | Platform | Type | Credentials | Extra | ProxyID
    | Concurrency | LoadFactor | Priority | RateMultiplier | Status | ErrorMessage | LastUsedAt | ExpiresAt
    | AutoPauseOnExpired | Schedulable | RateLimitedAt | RateLimitResetAt | OverloadUntil
    | TempUnschedulableUntil | TempUnschedulableReason | SessionWindowStart | SessionWindowEnd | SessionWindowStatus

  /** The names of the columns, constant by constant. */
  function ColumnName(c: Column): string {
    match c
    case ID => "id"
    case CreatedAt => "created_at"
    case UpdatedAt => "updated_at"
    case DeletedAt => "deleted_at"
    case Name => "name"
    case Notes => "notes"
    case Platform => "platform"
    case Type => "type"
    case Credentials => "credentials"
    case Extra => "extra"
    case ProxyID => "proxy_id"
    case Concurrency => "concurrency"
    case LoadFactor => "load_factor"
    case Priority => "priority"
    case RateMultiplier => "rate_multiplier"
    case Status => "status"
    case ErrorMessage => "error_message"
    case LastUsedAt => "last_used_at"
    case ExpiresAt => "expires_at"
    case AutoPauseOnExpired => "auto_pause_on_expired"
    case Schedulable => "schedulable"
    case RateLimitedAt => "rate_limited_at"
    case RateLimitResetAt => "rate_limit_reset_at"
    case OverloadUntil => "overload_until"
    case TempUnschedulableUntil => "temp_unschedulable_until"
    case TempUnschedulableReason => "temp_unschedulable_reason"
    case SessionWindowStart => "session_window_start"
    case SessionWindowEnd => "session_window_end"
    case SessionWindowStatus => "session_window_status"
  }

  /** A JSON object; the codec that stores it is taken to give back what it was given. */
  type Json = map<string, string>

  datatype Value =
    | VTime(t: int) | VString(s: string) | VJson(j: Json) | VInt(i: int) | VFloat(f: real) | VBool(b: bool)

  datatype Kind = KTime | KString | KJson | KInt | KFloat | KBool

  function KindOf(v: Value): Kind {
    match v
    case VTime(_) => KTime
    case VString(_) => KString
    case VJson(_) => KJson
    case VInt(_) => KInt
    case VFloat(_) => KFloat
    case VBool(_) => KBool
  }

  /** The type of the pointer in AccountMutation that holds the new value of the column. */
  function MutationKind(c: Column): Kind {
    match c
    case CreatedAt | UpdatedAt | DeletedAt | LastUsedAt | ExpiresAt | RateLimitedAt | RateLimitResetAt => KTime
    case OverloadUntil | TempUnschedulableUntil | SessionWindowStart | SessionWindowEnd => KTime
    case Name | Notes | Platform | Type | Status | ErrorMessage => KString
    case TempUnschedulableReason | SessionWindowStatus => KString
    case Credentials | Extra => KJson
    case ID | ProxyID | Concurrency | LoadFactor | Priority => KInt
    case RateMultiplier => KFloat
    case AutoPauseOnExpired | Schedulable => KBool
  }

  /** The declared type of an `if value, ok := mutation.X(); ok` of createSpec, and whether the node takes &value. */
  datatype Statement = Statement(kind: Kind, address: bool)

  /**
   The statement createSpec has for a column; none for the ID, which the database assigns, nor for proxy_id,
   which an edge writes.
   */
  function CreateStatement(c: Column): Option<Statement> {
    match c
    case CreatedAt => Some(Statement(KTime, false))
    case UpdatedAt => Some(Statement(KTime, false))
    case DeletedAt => Some(Statement(KTime, true))
    case Name => Some(Statement(KString, false))
    case Notes => Some(Statement(KString, true))
    case Platform => Some(Statement(KString, false))
    case Type => Some(Statement(KString, false))
    case Credentials => Some(Statement(KJson, false))
    case Extra => Some(Statement(KJson, false))
    case Concurrency => Some(Statement(KInt, false))
    case LoadFactor => Some(Statement(KInt, true))
    case Priority => Some(Statement(KInt, false))
    case RateMultiplier => Some(Statement(KFloat, false))
    case Status => Some(Statement(KString, false))
    case ErrorMessage => Some(Statement(KString, true))
    case LastUsedAt => Some(Statement(KTime, true))
    case ExpiresAt => Some(Statement(KTime, true))
    case AutoPauseOnExpired => Some(Statement(KBool, false))
    case Schedulable => Some(Statement(KBool, false))
    case RateLimitedAt => Some(Statement(KTime, true))
    case RateLimitResetAt => Some(Statement(KTime, true))
    case OverloadUntil => Some(Statement(KTime, true))
    case TempUnschedulableUntil => Some(Statement(KTime, true))
    case TempUnschedulableReason => Some(Statement(KString, true))
    case SessionWindowStart => Some(Statement(KTime, true))
    case SessionWindowEnd => Some(Statement(KTime, true))
    case SessionWindowStatus => Some(Statement(KString, true))
    case ID => None
    case ProxyID => None
  }

  /** The destination scanValues allocates for a column. */
  function ScanKind(c: Column): Kind {
    match c
    case Credentials | Extra => KJson
    case AutoPauseOnExpired | Schedulable => KBool
    case RateMultiplier => KFloat
    case ID | ProxyID | Concurrency | LoadFactor | Priority => KInt
    case Name | Notes | Platform | Type | Status | ErrorMessage
       | TempUnschedulableReason | SessionWindowStatus => KString
    case CreatedAt | UpdatedAt | DeletedAt | LastUsedAt | ExpiresAt | RateLimitedAt | RateLimitResetAt
       | OverloadUntil | TempUnschedulableUntil | SessionWindowStart | SessionWindowEnd => KTime
  }

  /** The type assignValues asserts for a column. */
  function AssignKind(c: Column): Kind {
    match c
    case ID => KInt
    case CreatedAt => KTime
    case UpdatedAt => KTime
    case DeletedAt => KTime
    case Name => KString
    case Notes => KString
    case Platform => KString
    case Type => KString
    case Credentials => KJson
    case Extra => KJson
    case ProxyID => KInt
    case Concurrency => KInt
    case LoadFactor => KInt
    case Priority => KInt
    case RateMultiplier => KFloat
    case Status => KString
    case ErrorMessage => KString
    case LastUsedAt => KTime
    case ExpiresAt => KTime
    case AutoPauseOnExpired => KBool
    case Schedulable => KBool
    case RateLimitedAt => KTime
    case RateLimitResetAt => KTime
    case OverloadUntil => KTime
    case TempUnschedulableUntil => KTime
    case TempUnschedulableReason => KString
    case SessionWindowStart => KTime
    case SessionWindowEnd => KTime
    case SessionWindowStatus => KString
  }

  /** Whether the node's field is a pointer, for which assignValues allocates. */
  predicate Nillable(c: Column) {
    match c
    case DeletedAt | Notes | ProxyID | LoadFactor | ErrorMessage | LastUsedAt | ExpiresAt => true
    case RateLimitedAt | RateLimitResetAt | OverloadUntil | TempUnschedulableUntil | TempUnschedulableReason => true
    case SessionWindowStart | SessionWindowEnd | SessionWindowStatus => true
    case _ => false
  }

  /** What is written to a field of the node: a value, or a pointer to one. */
  datatype Slot = Plain(v: Value) | Pointer(v: Value)

  function SlotOf(pointer: bool, v: Value): Slot {
    if pointer then Pointer(v) else Plain(v)
  }

  /** The scalar fields of an Account node that were written; the others are zero, or nil. */
  type Node = map<Column, Slot>

  /** The tables agree: what createSpec writes for a column is what scanValues and assignValues expect of it. */
  lemma TablesAgree(c: Column)
    ensures CreateStatement(c)
            == if c == ID || c == ProxyID then None else Some(Statement(MutationKind(c), Nillable(c)))
    ensures MutationKind(c) == ScanKind(c) == AssignKind(c)
  {}
}
