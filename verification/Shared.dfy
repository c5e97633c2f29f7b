/** Result codes shared by the modules (include/shared.h). */
module Shared {
  datatype Exception =
    | NoException
    | EidSelf
    | MallocFailed
    | LibEventFailed
    | AlreadyExists
    | DecodingFailed
    | RedisFailed
    | GeneralFailure
}
