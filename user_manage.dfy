/** The user-administration page of `src/pages/admin/UserManage.jsx`: the detail
    view loaded per user, the confirmed delete, the role badge, the identity
    documents and the full-size image view. */
module UserManage {
  import opened Wrappers
  import opened Js
  import opened AdminCommon

  const AdminRole := "ADMIN"
  const LoadFailedFallback := "Failed to load users"
  const LoadDetailsFallback := "Failed to load user details"
  const DeleteFailedFallback := "Failed to delete user"
  const AdminBadge := "bg-purple-100 text-purple-700 border-purple-300"
  const MemberBadge := "bg-blue-100 text-blue-700 border-blue-300"

  datatype User = User(id: int, name: string, email: string, contactNumber: string, role: string,
                       idFrontImageUrl: Option<string>, idBackImageUrl: Option<string>,
                       selfieImageUrl: Option<string>)

  function UserId(u: User): int {
    u.id
  }

  /** `getRoleBadgeColor`: purple for administrators, blue for everyone else. */
  function RoleBadgeColor(role: string): (r: string)
    ensures r == AdminBadge <==> role == AdminRole
    ensures r == MemberBadge <==> role != AdminRole
  {
    if role == AdminRole then AdminBadge else MemberBadge
  }

  /** The three identity documents a user uploads. */
  datatype Document = IdFront | IdBack | Selfie

  function DocumentUrl(u: User, d: Document): Option<string> {
    match d
    case IdFront => u.idFrontImageUrl
    case IdBack => u.idBackImageUrl
    case Selfie => u.selfieImageUrl
  }

  /** The list's documents column: `front || back || selfie`. */
  predicate DocumentsAvailable(u: User) {
    Truthy(u.idFrontImageUrl) || Truthy(u.idBackImageUrl) || Truthy(u.selfieImageUrl)
  }

  /** The column says "available" exactly when some document has a URL, and the
      detail view's "no documents" notice (`!front && !back && !selfie`) appears
      exactly when it does not. */
  lemma DocumentsAvailableMeaning(u: User)
    ensures DocumentsAvailable(u) <==> exists d :: Truthy(DocumentUrl(u, d))
    ensures !DocumentsAvailable(u) <==>
      !Truthy(u.idFrontImageUrl) && !Truthy(u.idBackImageUrl) && !Truthy(u.selfieImageUrl)
  {
    if DocumentsAvailable(u) {
      if Truthy(u.idFrontImageUrl) {
        assert Truthy(DocumentUrl(u, IdFront));
      } else if Truthy(u.idBackImageUrl) {
        assert Truthy(DocumentUrl(u, IdBack));
      } else {
        assert Truthy(DocumentUrl(u, Selfie));
      }
    }
  }

  /** The Delete action in the detail view: offered for every role but `ADMIN`, so
      exactly for the users whose badge is the member badge. */
  predicate DeleteOffered(u: User): (b: bool)
    ensures b <==> RoleBadgeColor(u.role) == MemberBadge
    ensures b ==> u.role != AdminRole
  {
    u.role != AdminRole
  }

  /** The two ways to open a document at full size: clicking its thumbnail, or its
      "View Full Size" button. */
  datatype Opener = Thumbnail | FullSizeButton

  /** The URL the full-size view gets, as the page is written: the ID back's button
      passes the stored URL without the host rewrite that every other opener
      applies. */
  function ModalUrlAsWritten(u: User, d: Document, opener: Opener): Option<string> {
    if d == IdBack && opener == FullSizeButton then DocumentUrl(u, d)
    else FixImageUrl(DocumentUrl(u, d))
  }

  /** An ID back stored on a private address: its thumbnail opens the local copy,
      its button the private address. */
  lemma ModalUrlAsWrittenDiffers(u: User)
    requires u.idBackImageUrl == Some("http://192.168.1.20:8080/a.png")
    ensures ModalUrlAsWritten(u, IdBack, FullSizeButton) == Some("http://192.168.1.20:8080/a.png")
    ensures ModalUrlAsWritten(u, IdBack, Thumbnail) == Some("http://localhost:8080/a.png")
  {
    FixImageUrlExample(u.idBackImageUrl.value);
  }

  /** The `src` of a document's thumbnail in the detail view. */
  function ThumbnailSrc(u: User, d: Document): Option<string> {
    FixImageUrl(DocumentUrl(u, d))
  }

  /** The full-size view's URL as intended: the thumbnail's own `src`, whichever
      opener is used, and none only for a document without a URL. */
  function ModalUrl(u: User, d: Document, opener: Opener): (r: Option<string>)
    ensures r == ThumbnailSrc(u, d)
    ensures r.None? <==> !Truthy(DocumentUrl(u, d))
    ensures r.Some? ==> r.value == ReplacePrivateHost(DocumentUrl(u, d).value)
  {
    FixImageUrl(DocumentUrl(u, d))
  }

  /** The page as written and the corrected one differ only on the ID back's button,
      where the page as written passes the stored URL through unrewritten. */
  lemma ModalUrlOnlyIdBackButtonDiffers(u: User, d: Document, opener: Opener)
    ensures !(d == IdBack && opener == FullSizeButton) ==> ModalUrlAsWritten(u, d, opener) == ModalUrl(u, d, opener)
    ensures d == IdBack && opener == FullSizeButton ==> ModalUrlAsWritten(u, d, opener) == DocumentUrl(u, d)
  {
  }

  /** With the rewrite applied on both paths, the ID back above opens its local copy
      from either. */
  lemma ModalUrlAgrees(u: User, opener: Opener)
    requires u.idBackImageUrl == Some("http://192.168.1.20:8080/a.png")
    ensures ModalUrl(u, IdBack, opener) == Some("http://localhost:8080/a.png")
  {
    FixImageUrlExample(u.idBackImageUrl.value);
  }

  /** The `selectedUser?.id === userId` test. */
  predicate Shows(selected: Option<User>, id: int) {
    selected.Some? && selected.value.id == id
  }

  class UserManagePage {
    var users: seq<User>
    var selectedUser: Option<User>
    var loading: bool
    var error: string
    var showModal: bool
    var modalLoading: bool
    var deleteConfirm: Option<int>

    /** The page as first rendered, before its list is fetched. */
    constructor ()
      ensures users == [] && selectedUser.None? && loading && error == "" && !showModal
      ensures !modalLoading && deleteConfirm.None?
    {
      users := [];
      selectedUser := None;
      loading := true;
      error := "";
      showModal := false;
      modalLoading := false;
      deleteConfirm := None;
    }

    /** `fetchUsers`; `outcome` is the list the call returned or what it threw. */
    method FetchUsers(outcome: Result<seq<User>, Thrown>)
      modifies this
      ensures outcome.Success? ==> users == outcome.value && error == ""
      ensures outcome.Failure? ==> users == old(users) && error == MessageOr(outcome.error, LoadFailedFallback)
      ensures !loading
      ensures selectedUser == old(selectedUser) && showModal == old(showModal)
      ensures modalLoading == old(modalLoading) && deleteConfirm == old(deleteConfirm)
    {
      loading := true;
      error := "";
      match outcome {
        case Success(data) =>
          users := data;
        case Failure(err) =>
          error := MessageOr(err, LoadFailedFallback);
      }
      loading := false;
    }

    /** `handleViewUser(userId)`: the view opens at once and closes again if the
      details cannot be loaded; `outcome` is what the details call returned or
      threw. */
    method HandleViewUser(userId: int, outcome: Result<User, Thrown>)
      modifies this
      ensures outcome.Success? ==> selectedUser == Some(outcome.value) && showModal && error == old(error)
      ensures outcome.Failure? ==>
        && selectedUser == old(selectedUser) && !showModal
        && error == MessageOr(outcome.error, LoadDetailsFallback)
      ensures !modalLoading
      ensures users == old(users) && deleteConfirm == old(deleteConfirm) && loading == old(loading)
    {
      modalLoading := true;
      showModal := true;
      match outcome {
        case Success(data) =>
          selectedUser := Some(data);
        case Failure(err) =>
          error := MessageOr(err, LoadDetailsFallback);
          showModal := false;
      }
      modalLoading := false;
    }

    /** `handleCloseModal`. */
    method HandleCloseModal()
      modifies this
      ensures selectedUser.None? && !showModal
      ensures users == old(users) && error == old(error) && modalLoading == old(modalLoading)
      ensures deleteConfirm == old(deleteConfirm) && loading == old(loading)
    {
      showModal := false;
      selectedUser := None;
    }

    /** `handleDeleteUser(userId)`; `outcome` is what the delete call threw, if
      anything. Unlike the gem listing, a success does not clear an earlier
      error. */
    method HandleDeleteUser(userId: int, outcome: Option<Thrown>)
      modifies this
      ensures outcome.None? ==>
        && users == WithoutId(old(users), UserId, userId)
        && deleteConfirm.None? && error == old(error)
        && (Shows(old(selectedUser), userId) ==> selectedUser.None? && !showModal)
        && (!Shows(old(selectedUser), userId) ==> selectedUser == old(selectedUser) && showModal == old(showModal))
      ensures outcome.Some? ==>
        && users == old(users) && deleteConfirm == old(deleteConfirm)
        && selectedUser == old(selectedUser) && showModal == old(showModal)
        && error == MessageOr(outcome.value, DeleteFailedFallback)
      ensures modalLoading == old(modalLoading) && loading == old(loading)
    {
      if outcome.None? {
        users := WithoutId(users, UserId, userId);
        deleteConfirm := None;
        if Shows(selectedUser, userId) {
          HandleCloseModal();
        }
      } else {
        error := MessageOr(outcome.value, DeleteFailedFallback);
      }
    }
  }
}
