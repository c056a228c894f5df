/** The pending-gem review page of `src/pages/admin/GemManage.jsx`: loading the
    pending list, the detail view and the status badge. */
module GemManage {
  import opened Wrappers
  import opened Js
  import opened AdminCommon

  const LoadFailedFallback := "Failed to load pending gems"

  const PendingBadge := "bg-yellow-100 text-yellow-700 border-yellow-300"
  const ApprovedBadge := "bg-green-100 text-green-700 border-green-300"
  const RejectedBadge := "bg-red-100 text-red-700 border-red-300"
  const GreyBadge := "bg-gray-100 text-gray-700 border-gray-300"

  const StatusColors: map<string, string> :=
    map["PENDING" := PendingBadge, "APPROVED" := ApprovedBadge, "REJECTED" := RejectedBadge]

  /** `colors[status] || grey`. */
  function StatusBadgeColor(status: string): (r: string)
    ensures status in StatusColors ==> r == StatusColors[status]
    ensures r == GreyBadge <==> status !in StatusColors
  {
    if status in StatusColors && StatusColors[status] != "" then StatusColors[status] else GreyBadge
  }

  class GemManagePage {
    var gems: seq<Gem>
    var selectedGem: Option<Gem>
    var loading: bool
    var error: string
    var showModal: bool

    /** The page as first rendered, before its list is fetched. */
    constructor ()
      ensures gems == [] && selectedGem.None? && loading && error == "" && !showModal
    {
      gems := [];
      selectedGem := None;
      loading := true;
      error := "";
      showModal := false;
    }

    /** `fetchPendingGems`; `outcome` is the list the call returned or what it
      threw. */
    method FetchPendingGems(outcome: Result<seq<Gem>, Thrown>)
      modifies this
      ensures outcome.Success? ==> gems == outcome.value && error == ""
      ensures outcome.Failure? ==> gems == old(gems) && error == MessageOr(outcome.error, LoadFailedFallback)
      ensures !loading
      ensures selectedGem == old(selectedGem) && showModal == old(showModal)
    {
      loading := true;
      error := "";
      match outcome {
        case Success(data) =>
          gems := data;
        case Failure(err) =>
          error := MessageOr(err, LoadFailedFallback);
      }
      loading := false;
    }

    /** `handleViewGem`. */
    method HandleViewGem(gem: Gem)
      modifies this
      ensures selectedGem == Some(gem) && showModal
      ensures gems == old(gems) && loading == old(loading) && error == old(error)
    {
      selectedGem := Some(gem);
      showModal := true;
    }

    /** `handleCloseModal`. */
    method HandleCloseModal()
      modifies this
      ensures selectedGem.None? && !showModal
      ensures gems == old(gems) && loading == old(loading) && error == old(error)
    {
      showModal := false;
      selectedGem := None;
    }
  }
}
