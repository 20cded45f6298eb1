/**
 * The settings screen state holder of
 * presentation/screens/settings/SettingsScreenViewModel.kt: two dialog
 * flags and the sign-out sequence.
 */
module SettingsScreen {
  import opened UserDataStore
  import opened LikeDao

  /** SettingScreenUiState; both dialogs start closed. */
  datatype SettingScreenUiState = SettingScreenUiState(isSignOutDialogOpen: bool, isThemeDialogOpen: bool)
  {
    /** The state with the sign-out dialog flipped and the theme dialog untouched. */
    function ToggledSignOut(): (r: SettingScreenUiState)
      ensures r.isSignOutDialogOpen != isSignOutDialogOpen
      ensures r.isThemeDialogOpen == isThemeDialogOpen
    {
      this.(isSignOutDialogOpen := !isSignOutDialogOpen)
    }

    /** The state with the theme dialog flipped and the sign-out dialog untouched. */
    function ToggledTheme(): (r: SettingScreenUiState)
      ensures r.isThemeDialogOpen != isThemeDialogOpen
      ensures r.isSignOutDialogOpen == isSignOutDialogOpen
    {
      this.(isThemeDialogOpen := !isThemeDialogOpen)
    }
  }

  /** Toggling a dialog twice restores the state. */
  lemma ToggleTwiceRestores(s: SettingScreenUiState)
    ensures s.ToggledSignOut().ToggledSignOut() == s
    ensures s.ToggledTheme().ToggledTheme() == s
  {
  }

  /** The two toggles are independent: their order does not matter. */
  lemma TogglesCommute(s: SettingScreenUiState)
    ensures s.ToggledSignOut().ToggledTheme() == s.ToggledTheme().ToggledSignOut()
  {
  }

  /**
   * The steps of a sign-out that leave this model's state: the remote
   * logout call, the two follower-table clears (the followers and the
   * following data source are the same class), and the navigation.
   * UnsetLoggedInUser and DeleteAllLikes also change the store and the
   * likes table passed in.
   */
  datatype Effect =
    | LogoutUser(userId: string, deviceToken: string)
    | UnsetLoggedInUser
    | DeleteAllLikes
    | DeleteAllFollowers
    | NavigateToHome

  class SettingsScreenViewModel {
    var uiState: SettingScreenUiState

    constructor ()
      ensures uiState == SettingScreenUiState(false, false)
    {
      uiState := SettingScreenUiState(false, false);
    }

    /** toggleSignOutDialog */
    method ToggleSignOutDialog()
      modifies this
      ensures uiState == old(uiState).ToggledSignOut()
    {
      uiState := uiState.ToggledSignOut();
    }

    /** toggleThemeDialog */
    method ToggleThemeDialog()
      modifies this
      ensures uiState == old(uiState).ToggledTheme()
    {
      uiState := uiState.ToggledTheme();
    }

    /**
     * signOutUser: logout with the user id and the push token as device
     * token, then clear the stored user, the likes and both follower
     * tables, then go home; the dialogs are left as they are.
     */
    method SignOutUser(userId: string, fcmToken: string, store: UserDataStoreRepository, likes: LikeTable)
      returns (effects: seq<Effect>)
      modifies store, likes
      ensures effects == [LogoutUser(userId, fcmToken), UnsetLoggedInUser, DeleteAllLikes,
                          DeleteAllFollowers, DeleteAllFollowers, NavigateToHome]
      ensures store.user.None? && !store.IsUserLoggedIn()
      ensures likes.Valid() && likes.rows == map[]
      ensures uiState == old(uiState)
    {
      effects := [LogoutUser(userId, fcmToken)];
      store.UnsetLoggedInUser();
      effects := effects + [UnsetLoggedInUser];
      likes.DeleteAllLikes();
      effects := effects + [DeleteAllLikes, DeleteAllFollowers, DeleteAllFollowers, NavigateToHome];
    }
  }
}
