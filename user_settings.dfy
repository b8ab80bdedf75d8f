/**
  The users screen: the guard that keeps at most one add or remove operation pending, the
  broadcast receiver that clears it and evicts cached icons, and the per-user rules the
  user list applies (which buttons a row gets, which summary it shows, the default
  avatar, whether the add entry is enabled).

  Threads, handlers and dialogs are reduced to what they change: starting and finishing an
  add are two events, and a handler message or a dialog to show is returned as a value.
 */
module UserSettings {

  /** `mRemovingUserId` when no removal is pending, and an absent `EXTRA_USER_HANDLE`. */
  const NoUser: int := -1

  const UserTypeUser: int := 1
  const UserTypeRestrictedProfile: int := 2

  /** The platform's `UserHandle.USER_OWNER`. */
  const UserOwner: int := 0

  /** The platform's `UserInfo.FLAG_INITIALIZED`. */
  const FlagInitialized: bv32 := 0x10

  /** The number of default avatars in `USER_DRAWABLES`. */
  const UserDrawablesLength: int := 8

  /** A cached user photo; its pixels are not modelled. */
  datatype Icon = Icon(handle: int)

  datatype Dialog = AddUserDialog | NeedLockscreenDialog | ConfirmRemoveDialog

  /** What an add request does: nothing, show a dialog, or start adding a restricted profile. */
  datatype AddResponse = NoResponse | ShowDialog(dialog: Dialog) | AddStarted

  datatype HandlerMessage = UpdateList | SetupUser(userId: int) | ConfigUser(userId: int)

  datatype Broadcast = UserRemoved | UserInfoChanged(userHandle: int) | OtherAction

  /**
    `onAddUserClicked`: ignored while a removal is pending or an add is running; otherwise a
    user gets the add dialog and a restricted profile is created straight away if a screen
    lock is set, and otherwise the user is asked to set one.
   */
  function AddRequestResponse(idle: bool, userType: int, hasLockscreenSecurity: bool): AddResponse
  {
    if !idle then NoResponse
    else if userType == UserTypeUser then ShowDialog(AddUserDialog)
    else if userType == UserTypeRestrictedProfile then
      if hasLockscreenSecurity then AddStarted else ShowDialog(NeedLockscreenDialog)
    else NoResponse
  }

  /** The messages the add thread posts once the user exists. */
  function AddCompletionMessages(userType: int, newUserId: int): seq<HandlerMessage>
  {
    if userType == UserTypeUser then [UpdateList, SetupUser(newUserId)] else [ConfigUser(newUserId)]
  }

  class UserSettings {
    var removingUserId: int
    var addingUser: bool
    var userIcons: map<int, Icon>

    constructor()
      ensures removingUserId == NoUser && !addingUser && userIcons == map[]
    {
      removingUserId := NoUser;
      addingUser := false;
      userIcons := map[];
    }

    /** Neither a removal nor an add is pending. */
    predicate Idle()
      reads this
    {
      removingUserId == NoUser && !addingUser
    }

    /** A removal and an add are never pending together. */
    predicate AtMostOnePending()
      reads this
    {
      !(removingUserId != NoUser && addingUser)
    }

    method OnAddUserClicked(userType: int, hasLockscreenSecurity: bool) returns (r: AddResponse)
      modifies this
      ensures r == AddRequestResponse(old(Idle()), userType, hasLockscreenSecurity)
      ensures addingUser == (old(addingUser) || r == AddStarted)
      ensures removingUserId == old(removingUserId) && userIcons == old(userIcons)
      ensures old(AtMostOnePending()) ==> AtMostOnePending()
    {
      r := NoResponse;
      if removingUserId == NoUser && !addingUser {
        if userType == UserTypeUser {
          r := ShowDialog(AddUserDialog);
        } else if userType == UserTypeRestrictedProfile {
          if hasLockscreenSecurity {
            AddUserNow(userType);
            r := AddStarted;
          } else {
            r := ShowDialog(NeedLockscreenDialog);
          }
        }
      }
    }

    /** `addUserNow` up to starting the thread that creates the user. */
    method AddUserNow(userType: int)
      modifies this
      ensures addingUser
      ensures removingUserId == old(removingUserId) && userIcons == old(userIcons)
      ensures old(removingUserId) == NoUser ==> AtMostOnePending()
    {
      addingUser := true;
    }

    /** The end of the add thread: the flag drops and the handler is told what to do next. */
    method FinishAddUser(userType: int, newUserId: int) returns (messages: seq<HandlerMessage>)
      modifies this
      ensures !addingUser
      ensures removingUserId == old(removingUserId) && userIcons == old(userIcons)
      ensures messages == AddCompletionMessages(userType, newUserId)
      ensures AtMostOnePending()
    {
      addingUser := false;
      if userType == UserTypeUser {
        messages := [UpdateList, SetupUser(newUserId)];
      } else {
        messages := [ConfigUser(newUserId)];
      }
    }

    /** `onRemoveUserClicked`: the user id is recorded, and confirmation asked, only when idle. */
    method OnRemoveUserClicked(userId: int) returns (confirm: bool)
      modifies this
      ensures confirm == old(Idle())
      ensures removingUserId == if confirm then userId else old(removingUserId)
      ensures addingUser == old(addingUser) && userIcons == old(userIcons)
      ensures old(AtMostOnePending()) ==> AtMostOnePending()
    {
      confirm := false;
      if removingUserId == NoUser && !addingUser {
        removingUserId := userId;
        confirm := true;
      }
    }

    /** Dismissing any dialog returns to idle. */
    method OnDismiss()
      modifies this
      ensures Idle()
      ensures userIcons == old(userIcons)
    {
      addingUser := false;
      removingUserId := NoUser;
    }

    /**
      The user-change receiver: a removal broadcast ends the pending removal, an info-change
      broadcast for a known user evicts that user's cached icon, and the list is refreshed.
     */
    method OnReceive(action: Broadcast) returns (message: HandlerMessage)
      modifies this
      ensures message == UpdateList
      ensures addingUser == old(addingUser)
      ensures removingUserId == if action.UserRemoved? then NoUser else old(removingUserId)
      ensures userIcons ==
        if action.UserInfoChanged? && action.userHandle != NoUser
        then old(userIcons) - {action.userHandle} else old(userIcons)
      ensures old(AtMostOnePending()) ==> AtMostOnePending()
    {
      match action {
        case UserRemoved =>
          removingUserId := NoUser;
        case UserInfoChanged(userHandle) =>
          if userHandle != NoUser {
            userIcons := userIcons - {userHandle};
          }
        case OtherAction =>
      }
      message := UpdateList;
    }
  }

  // ---------------------------------------------------------------------------
  // Per-user rules of the user list
  // ---------------------------------------------------------------------------

  /** The parts of a `UserInfo` the list consults. */
  datatype UserInfo = UserInfo(
    id: int,
    flags: bv32,
    isGuest: bool,
    isRestricted: bool,
    isManagedProfile: bool,
    isEnabled: bool)

  predicate InitializedFlags(flags: bv32)
  {
    flags & FlagInitialized != 0
  }

  predicate IsInitialized(user: UserInfo)
  {
    InitializedFlags(user.flags)
  }

  /** Setting the FLAG_INITIALIZED bit initializes a user, clearing it un-initializes. */
  lemma InitializedFlagDecides(flags: bv32)
    ensures InitializedFlags(flags | FlagInitialized)
    ensures !InitializedFlags(flags & !FlagInitialized)
  {
  }

  /** No other flag bit changes whether a user is initialized. */
  lemma InitializedIgnoresOtherFlags(flags: bv32, other: bv32)
    requires other & FlagInitialized == 0
    ensures InitializedFlags(flags | other) == InitializedFlags(flags)
  {
  }

  /**
    The settings button. The viewer's own row is created without button handlers; on every
    other row the owner sees it with telephony and on restricted profiles.
   */
  predicate ShowSettings(isOwner: bool, voiceCapable: bool, user: UserInfo, isMe: bool)
  {
    !isMe && isOwner && (voiceCapable || user.isRestricted)
  }

  /**
    The delete button. The viewer's own row is created without button handlers; on every
    other row the owner sees it on secondary users of a device without telephony.
   */
  predicate ShowDelete(isOwner: bool, voiceCapable: bool, user: UserInfo, isMe: bool)
  {
    !isMe && isOwner && !voiceCapable && !user.isRestricted && !user.isGuest
  }

  /**
    No row gets both buttons, and the viewer's own row gets neither. The owner gives every
    other non-guest row exactly one of them, and other users give none. With telephony
    that button is settings; without it, a restricted profile gets settings and a
    secondary user gets delete.
   */
  lemma RowButtons(isOwner: bool, voiceCapable: bool, user: UserInfo, isMe: bool)
    ensures !(ShowSettings(isOwner, voiceCapable, user, isMe) && ShowDelete(isOwner, voiceCapable, user, isMe))
    ensures isMe ==> !ShowSettings(isOwner, voiceCapable, user, isMe) && !ShowDelete(isOwner, voiceCapable, user, isMe)
    ensures isOwner && !isMe && !user.isGuest ==>
      ShowSettings(isOwner, voiceCapable, user, isMe) != ShowDelete(isOwner, voiceCapable, user, isMe)
    ensures !isOwner ==>
      !ShowSettings(isOwner, voiceCapable, user, isMe) && !ShowDelete(isOwner, voiceCapable, user, isMe)
    ensures isOwner && !isMe && voiceCapable ==> ShowSettings(isOwner, voiceCapable, user, isMe)
    ensures isOwner && !isMe && !voiceCapable && !user.isGuest ==>
      (ShowSettings(isOwner, voiceCapable, user, isMe) <==> user.isRestricted)
  {
  }

  datatype Summary =
    | NoSummary
    | OwnerSummary
    | RestrictedNotSetUp
    | ManagedProfileNotSetUp
    | NotSetUp
    | RestrictedProfileSummary
    | ManagedProfileSummary
    | ManagedProfileNotEnabled

  predicate IsNotSetUp(s: Summary)
  {
    s == RestrictedNotSetUp || s == ManagedProfileNotSetUp || s == NotSetUp
  }

  /**
    The summary `updateUserList` leaves on a user's row. A row starts with the owner label
    when it is the owner's: another user's row gets it when created, and the viewer's own
    row got it in `onCreate` when the viewer is the owner. The set-up state and then the
    profile kind override it.
   */
  function UserSummary(user: UserInfo): Summary
  {
    var initial := if user.id == UserOwner then OwnerSummary else NoSummary;
    if !IsInitialized(user) then
      if user.isRestricted then RestrictedNotSetUp
      else if user.isManagedProfile then ManagedProfileNotSetUp
      else NotSetUp
    else if user.isRestricted then RestrictedProfileSummary
    else if user.isManagedProfile then
      if user.isEnabled then ManagedProfileSummary else ManagedProfileNotEnabled
    else initial
  }

  /**
    A row says "not set up" exactly when the user is not initialized, the restricted kind
    winning over the managed kind. The owner label survives exactly on the row of an
    initialized owner who is neither restricted nor managed, whoever views it.
   */
  lemma SummaryChoice(user: UserInfo)
    ensures IsNotSetUp(UserSummary(user)) <==> !IsInitialized(user)
    ensures user.isRestricted ==>
      UserSummary(user) == (if IsInitialized(user) then RestrictedProfileSummary else RestrictedNotSetUp)
    ensures UserSummary(user) == OwnerSummary <==>
      IsInitialized(user) && !user.isRestricted && !user.isManagedProfile && user.id == UserOwner
    ensures UserSummary(user) == ManagedProfileNotEnabled <==>
      IsInitialized(user) && !user.isRestricted && user.isManagedProfile && !user.isEnabled
    ensures UserSummary(user) == NoSummary <==>
      IsInitialized(user) && !user.isRestricted && !user.isManagedProfile && user.id != UserOwner
  {
  }

  /** Java's `%`: the remainder takes the sign of the dividend. */
  function JavaRemainder(a: int, b: int): (r: int)
    requires b > 0
    ensures a >= 0 ==> 0 <= r < b
    ensures a < 0 ==> -b < r <= 0
  {
    if a >= 0 then a % b else -((-a) % b)
  }

  /** `userId % USER_DRAWABLES.length`, the default avatar of a user. */
  function AvatarIndex(userId: int): int
  {
    JavaRemainder(userId, UserDrawablesLength)
  }

  /**
    Every non-negative user id picks an existing avatar, and ids eight apart pick the same one;
    a negative id would index outside the array.
   */
  lemma AvatarIndexInBounds(userId: int)
    ensures userId >= 0 ==> 0 <= AvatarIndex(userId) < UserDrawablesLength
    ensures userId >= 0 ==> AvatarIndex(userId + UserDrawablesLength) == AvatarIndex(userId)
    ensures userId < 0 && userId % UserDrawablesLength != 0 ==> AvatarIndex(userId) < 0
  {
  }

  /** The add entry is enabled while another user still fits. */
  function MoreUsers(maxSupportedUsers: int, userCount: nat): bool
  {
    maxSupportedUsers > userCount
  }
}
