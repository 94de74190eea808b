/** The sentinel results of the repository contracts, one enumeration per
    entity (`EExitResponse` and its siblings). Constructor names repeat
    across enumerations, so uses are written qualified
    (`EExitResponse.NotAuthorized`). */
module Responses {
  datatype EExitResponse = ExitNotFound | ProductNotFound | NoStock | NotAuthorized

  datatype EEntranceResponse = EntranceNotFound | ProductNotFound | NotAuthorized

  datatype EProductResponse = ProductNotFound | ProductExists | StoreNotFound | NotAuthorized

  datatype EStoreResponse = StoreNotFound | NameStoreExists | EmailExists | NotAuthorized

  datatype EDevolutionResponse = DevolutionNotFound | EntranceNotFound | NotAuthorized

  datatype EDefectiveProductResponse = DefectiveProductNotFound | EntranceNotFound | NotAuthorized
}
