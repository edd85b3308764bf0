/** Result shapes shared by every check of the list-verification helpers.

    Each JavaScript helper either returns normally or throws an `Error`; the model
    returns `Pass` or `Fail(f)` where `f` names which `throw` was reached and carries
    the values the thrown message interpolates.
 */
module Outcomes {

  /** A value that may be absent: an attribute the page may not set, or a regular
      expression that may find no match. */
  datatype Option<+T> = None | Some(value: T) {

    /** The value when there is one, otherwise `default` (JavaScript's `x ?? d`). */
    function GetOr(default: T): T {
      match this
      case Some(v) => v
      case None => default
    }
  }

  /** One constructor per distinct `throw` of the modelled helpers. */
  datatype Failure =
    | UnknownCategory(category: string)                       // no transaction mapping for the category
    | FormatMismatch(category: string, title: string, template: string)
    | MissingActionType                                       // null attribute reaching toUpperCase
    | GenericAction                                           // an item tagged GENERIC
    | StalledPagination                                       // "Load More" added nothing
    | TeamMismatch(expectedTeam: string)
    | NotSorted(order: string)
    | CountMismatch(expectedCount: nat, found: nat)
    | NoListItems

  /** Normal return or the failure that was thrown. */
  datatype Outcome = Pass | Fail(failure: Failure) {

    /** Sequencing: the first failure wins, as with consecutive awaited checks. */
    function Then(next: Outcome): (r: Outcome)
      ensures r.Pass? <==> Pass? && next.Pass?
      ensures Fail? ==> r == this
      ensures Pass? ==> r == next
    {
      if Fail? then this else next
    }
  }
}
