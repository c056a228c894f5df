/** The approved-gem listing of `src/pages/admin/ListedGems.jsx`: the detail view and
    the confirmed delete, which drops the gem from the list and closes the view when
    it showed that gem. The host rewrite, listing badge and verified mark it uses
    are in `AdminCommon`. */
module ListedGems {
  import opened Wrappers
  import opened Js
  import opened AdminCommon

  const LoadFailedFallback := "Failed to load approved gems"
  const DeleteFailedFallback := "Failed to delete gem"

  function GemId(g: Gem): int {
    g.id
  }

  /** The `selectedGem?.id === gemId` test. */
  predicate Shows(selected: Option<Gem>, id: int) {
    selected.Some? && selected.value.id == id
  }

  class ListedGemsPage {
    var gems: seq<Gem>
    var selectedGem: Option<Gem>
    var loading: bool
    var error: string
    var showModal: bool
    var deleteConfirm: Option<int>
    var deleteLoading: bool

    /** The page as first rendered, before its list is fetched. */
    constructor ()
      ensures gems == [] && selectedGem.None? && loading && error == "" && !showModal
      ensures deleteConfirm.None? && !deleteLoading
    {
      gems := [];
      selectedGem := None;
      loading := true;
      error := "";
      showModal := false;
      deleteConfirm := None;
      deleteLoading := false;
    }

    /** `fetchApprovedGems`; `outcome` is the list the call returned or what it
      threw. The half-second minimum wait beside the call does not change the
      outcome. */
    method FetchApprovedGems(outcome: Result<seq<Gem>, Thrown>)
      modifies this
      ensures outcome.Success? ==> gems == outcome.value && error == ""
      ensures outcome.Failure? ==> gems == old(gems) && error == MessageOr(outcome.error, LoadFailedFallback)
      ensures !loading
      ensures selectedGem == old(selectedGem) && showModal == old(showModal)
      ensures deleteConfirm == old(deleteConfirm) && deleteLoading == old(deleteLoading)
    {
      loading := true;
      error := "";
      match outcome {
        case Success(data) =>
          gems := data;
        case Failure(err) =>
          error := MessageOr(err, LoadFailedFallback);
      }
      loading := false;
    }

    /** `handleViewGem`. */
    method HandleViewGem(gem: Gem)
      modifies this
      ensures selectedGem == Some(gem) && showModal
      ensures gems == old(gems) && error == old(error) && deleteConfirm == old(deleteConfirm) && deleteLoading == old(deleteLoading)
      ensures loading == old(loading)
    {
      selectedGem := Some(gem);
      showModal := true;
    }

    /** `handleCloseModal`. */
    method HandleCloseModal()
      modifies this
      ensures selectedGem.None? && !showModal
      ensures gems == old(gems) && error == old(error) && deleteConfirm == old(deleteConfirm) && deleteLoading == old(deleteLoading)
      ensures loading == old(loading)
    {
      showModal := false;
      selectedGem := None;
    }

    /** `handleDeleteGem(gemId)`; `outcome` is what the delete call threw, if
      anything. */
    method HandleDeleteGem(gemId: int, outcome: Option<Thrown>)
      modifies this
      ensures outcome.None? ==>
        && gems == WithoutId(old(gems), GemId, gemId)
        && deleteConfirm.None? && error == ""
        && (Shows(old(selectedGem), gemId) ==> selectedGem.None? && !showModal)
        && (!Shows(old(selectedGem), gemId) ==> selectedGem == old(selectedGem) && showModal == old(showModal))
      ensures outcome.Some? ==>
        && gems == old(gems) && deleteConfirm == old(deleteConfirm)
        && selectedGem == old(selectedGem) && showModal == old(showModal)
        && error == MessageOr(outcome.value, DeleteFailedFallback)
      ensures !deleteLoading && loading == old(loading)
    {
      deleteLoading := true;
      error := "";
      if outcome.None? {
        gems := WithoutId(gems, GemId, gemId);
        deleteConfirm := None;
        if Shows(selectedGem, gemId) {
          HandleCloseModal();
        }
      } else {
        error := MessageOr(outcome.value, DeleteFailedFallback);
      }
      deleteLoading := false;
    }
  }

  /** After a successful delete no gem with that id is left and every other gem is
      still listed. */
  lemma DeleteLeavesOthers(gems: seq<Gem>, gemId: int)
    ensures forall g :: g in WithoutId(gems, GemId, gemId) ==> g.id != gemId
    ensures forall g :: g in gems && g.id != gemId ==> g in WithoutId(gems, GemId, gemId)
  {
    var r := WithoutId(gems, GemId, gemId);
    forall g | g in r ensures g.id != gemId {
      var i :| 0 <= i < |r| && r[i] == g;
    }
    forall g | g in gems && g.id != gemId ensures g in r {
      var i :| 0 <= i < |gems| && gems[i] == g;
    }
  }
}
