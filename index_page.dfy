/**
 * The `Index` page (src/pages/Index.tsx): it owns the `useFakeUsers` hook and
 * the modal state (`selectedUser`, `isModalOpen`), wires the buttons and the
 * dialog to their handlers, and renders the filtered profiles as cards.
 */
module IndexPage {
  import opened Wrappers
  import opened FakeUsers
  import opened UserFilter
  import opened UseFakeUsers

  /** One `ProfileCard`, keyed by the profile's id. */
  datatype Card = Card(key: string, user: FakeUser)

  /** The grid: the "No profiles match" message, or one card per profile. */
  datatype CardGrid = NoMatchesMessage | Cards(cards: seq<Card>)

  /** `users.length > 0 ? users.map(user => <ProfileCard .../>) : <no-match message>`. */
  function RenderGrid(users: seq<FakeUser>): (g: CardGrid)
    ensures g.NoMatchesMessage? <==> |users| == 0
    ensures g.Cards? ==> |g.cards| == |users|
    ensures g.Cards? ==> forall i :: 0 <= i < |users| ==> g.cards[i].user == users[i] && g.cards[i].key == users[i].id
  {
    if |users| > 0 then Cards(seq(|users|, i requires 0 <= i < |users| => Card(users[i].id, users[i])))
    else NoMatchesMessage
  }

  class Page {
    const hook: UserStore
    var selectedUser: Option<FakeUser>
    var isModalOpen: bool

    /** The modal is open exactly when a profile is selected. */
    ghost predicate Valid()
      reads this, hook
    {
      hook.Valid() && (isModalOpen <==> selectedUser.Some?)
    }

    /** First render: a fresh batch, default filters, no profile selected, modal closed. */
    constructor (draws: nat -> FakerDraw)
      ensures Valid() && fresh(hook)
      ensures hook.allUsers == GenerateBatch(draws) && hook.filters == DefaultFilters
      ensures selectedUser == None && !isModalOpen
    {
      hook := new UserStore(draws);
      selectedUser := None;
      isModalOpen := false;
    }

    /** The cards shown for the current batch and filters. */
    function Grid(): (g: CardGrid)
      reads this, hook
      ensures g.NoMatchesMessage? <==> hook.Users() == []
      ensures Valid() && hook.filters == DefaultFilters ==> g.Cards? && |g.cards| == CountOfFakeUsers
    {
      RenderGrid(hook.Users())
    }

    /** `handleOpenModal`, called with the profile of the clicked card. */
    method HandleOpenModal(user: FakeUser)
      requires Valid()
      modifies this
      ensures Valid()
      ensures selectedUser == Some(user) && isModalOpen
      ensures unchanged(hook)
    {
      selectedUser := Some(user);
      isModalOpen := true;
    }

    /** `handleCloseModal`. */
    method HandleCloseModal()
      requires Valid()
      modifies this
      ensures Valid()
      ensures selectedUser == None && !isModalOpen
      ensures unchanged(hook)
    {
      isModalOpen := false;
      selectedUser := None;
    }

    /** The dialog's `onOpenChange`: it calls `onClose` only when told it is now closed. */
    method HandleDialogOpenChange(open: bool)
      requires Valid()
      modifies this
      ensures Valid()
      ensures open ==> selectedUser == old(selectedUser) && isModalOpen == old(isModalOpen)
      ensures !open ==> selectedUser == None && !isModalOpen
      ensures unchanged(hook)
    {
      if !open {
        HandleCloseModal();
      }
    }

    /** `handleResetFilters`: all three filters back to their defaults, so every card shows again. */
    method HandleResetFilters()
      requires Valid()
      modifies hook
      ensures Valid()
      ensures hook.filters == DefaultFilters
      ensures hook.allUsers == old(hook.allUsers)
      ensures hook.Users() == hook.allUsers
      ensures selectedUser == old(selectedUser) && isModalOpen == old(isModalOpen)
    {
      hook.UpdateFilters(Whole(DefaultFilters));
    }

    /** The "Generate new random users" button, wired straight to `generateNewUsers`. */
    method HandleGenerateNewUsers(draws: nat -> FakerDraw)
      requires Valid()
      modifies hook
      ensures Valid()
      ensures hook.allUsers == GenerateBatch(draws)
      ensures hook.filters == old(hook.filters)
      ensures selectedUser == old(selectedUser) && isModalOpen == old(isModalOpen)
    {
      hook.GenerateNewUsers(draws);
    }

    /** `onFiltersChange`, wired straight to `updateFilters`. */
    method HandleFiltersChange(p: PartialFilters)
      requires Valid()
      modifies hook
      ensures Valid()
      ensures hook.filters == MergeFilters(old(hook.filters), p)
      ensures hook.allUsers == old(hook.allUsers)
      ensures selectedUser == old(selectedUser) && isModalOpen == old(isModalOpen)
    {
      hook.UpdateFilters(p);
    }
  }

  /** Opening a card and closing the dialog leaves no trace on the batch or the filters. */
  method OpenThenClose(page: Page, user: FakeUser)
    requires page.Valid()
    modifies page
    ensures page.Valid()
    ensures page.selectedUser == None && !page.isModalOpen
    ensures page.hook.allUsers == old(page.hook.allUsers) && page.hook.filters == old(page.hook.filters)
  {
    page.HandleOpenModal(user);
    page.HandleDialogOpenChange(false);
  }
}
