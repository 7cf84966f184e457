/**
 * The profile form of `src/pages/Account.tsx`: the wallet validator and abbreviation,
 * the bio cap, the dirty flags, and the guards and payloads of the two save handlers.
 * The camera and identity-photo flows use device APIs and are not part of this model.
 */
module Account {
  import opened Common
  import opened JsStrings

  /** The signed-in user's fields the form reads; `None` is `null` or `undefined`. */
  datatype UserFields = UserFields(username: Option<string>, bio: Option<string>, walletAddress: Option<string>)

  const BioLimit := 280
  const WalletMessage := "Enter a valid Polygon address (0x + 40 hex chars)."

  /** `[a-fA-F0-9]`. */
  predicate IsHexDigit(c: char) {
    ('a' <= c <= 'f') || ('A' <= c <= 'F') || ('0' <= c <= '9')
  }

  /** `/^0x[a-fA-F0-9]{40}$/`. */
  predicate IsPolygonAddress(s: string) {
    |s| == 42 && s[..2] == "0x" && forall i :: 2 <= i < 42 ==> IsHexDigit(s[i])
  }

  /** `validateWallet`: empty input is allowed (it removes the wallet); otherwise the trimmed input must be an address. */
  function ValidateWallet(v: string): (r: Option<string>)
    ensures r.None? <==> v == "" || IsPolygonAddress(Trim(v))
    ensures r.Some? ==> r.value == WalletMessage
  {
    if v == "" then None
    else if IsPolygonAddress(Trim(v)) then None
    else Some(WalletMessage)
  }

  /** Non-empty input made only of whitespace is rejected: it trims to the empty string. */
  lemma WhitespaceWalletInvalid(v: string)
    requires v != "" && AllWhitespace(v)
    ensures ValidateWallet(v) == Some(WalletMessage)
  {
    TrimEmptyIff(v);
  }

  /** `formattedWallet`: nothing for empty input, `first6...last4` above 10 characters, the input otherwise. */
  function FormattedWallet(v: string): (r: Option<string>)
    ensures r.None? <==> v == ""
    ensures |v| > 10 ==> |r.value| == 13 && r.value[..6] == v[..6] && r.value[6..9] == "..." && r.value[9..] == v[|v| - 4..]
    ensures 0 < |v| <= 10 ==> r == Some(v)
  {
    if v == "" then None
    else if |v| > 10 then Some(Prefix(v, 6) + "..." + SliceLast(v, 4))
    else Some(v)
  }

  /** `usernameInput || undefined` and `bioInput || null`. */
  datatype ProfileUpdate = ProfileUpdate(username: Option<string>, bio: Option<string>)

  function ProfilePayload(usernameInput: string, bioInput: string): (r: ProfileUpdate)
    ensures r.username.None? <==> usernameInput == ""
    ensures r.bio.None? <==> bioInput == ""
    ensures r.username.Some? ==> r.username.value == usernameInput
    ensures r.bio.Some? ==> r.bio.value == bioInput
  {
    ProfileUpdate(if usernameInput != "" then Some(usernameInput) else None, if bioInput != "" then Some(bioInput) else None)
  }

  /** `walletInput.trim() || null`. */
  function WalletPayload(walletInput: string): (r: Option<string>)
    ensures r.None? <==> Trim(walletInput) == ""
    ensures r.Some? ==> r.value == Trim(walletInput)
  {
    var t := Trim(walletInput);
    if t != "" then Some(t) else None
  }

  /** A wallet that passes validation is sent as an address, or as `null` exactly when the input is empty. */
  lemma ValidWalletPayload(walletInput: string)
    requires ValidateWallet(walletInput).None?
    ensures WalletPayload(walletInput).None? <==> walletInput == ""
    ensures WalletPayload(walletInput).Some? ==> IsPolygonAddress(WalletPayload(walletInput).value)
  {
  }

  /** The toast a save shows, given how the mutation settled. */
  datatype SaveOutcome = Saved | FailedWithError(message: string) | FailedOther

  datatype Toast = Toast(title: string, description: string)

  /** The texts a save handler's toasts use: the success toast and the failure fallback. */
  datatype SaveTexts = SaveTexts(done: Toast, fallback: string)

  const ProfileTexts := SaveTexts(Toast("Profile updated", "Your information has been saved."), "Could not save your changes.")
  const WalletTexts := SaveTexts(Toast("Wallet updated", "Your wallet address has been saved."), "Could not save your wallet.")

  /** The toast of a save handler: its success toast, or `Update failed` with the error's message or the fallback. */
  function SaveToast(texts: SaveTexts, o: SaveOutcome): (t: Toast)
    ensures o.Saved? ==> t == texts.done
    ensures !o.Saved? ==> t.title == "Update failed"
    ensures o.FailedWithError? ==> t.description == o.message
    ensures o.FailedOther? ==> t.description == texts.fallback
  {
    match o
    case Saved => texts.done
    case FailedWithError(m) => Toast("Update failed", m)
    case FailedOther => Toast("Update failed", texts.fallback)
  }

  /** `user?.username?.charAt(0)?.toUpperCase()`. */
  function Initial(user: Option<UserFields>): (r: Option<string>)
    ensures r.Some? <==> user.Some? && user.value.username.Some?
    ensures r.Some? ==> |r.value| <= 1
  {
    if user.Some? && user.value.username.Some? then
      Some(ToUpper(Prefix(user.value.username.value, 1)))
    else None
  }

  /** The form's state. */
  class AccountForm {
    const user: UserFields
    var usernameInput: string
    var bioInput: string
    var walletInput: string
    var walletError: Option<string>
    /** `updateProfile.isPending`. */
    var isSaving: bool

    /** The effect on `walletInput` has run: the error shown is the validator's verdict on the input. */
    ghost predicate Valid()
      reads this
    {
      walletError == ValidateWallet(walletInput)
    }

    /** The inputs start from the user's values, `null` read as empty. */
    constructor(user: UserFields)
      ensures this.user == user && Valid() && !isSaving
      ensures usernameInput == user.username.GetOr("") && bioInput == user.bio.GetOr("")
      ensures walletInput == user.walletAddress.GetOr("")
    {
      this.user := user;
      usernameInput := user.username.GetOr("");
      bioInput := user.bio.GetOr("");
      walletInput := user.walletAddress.GetOr("");
      walletError := ValidateWallet(user.walletAddress.GetOr(""));
      isSaving := false;
    }

    /** `isUserInfoDirty`. */
    predicate UserInfoDirty()
      reads this
    {
      usernameInput != user.username.GetOr("") || bioInput != user.bio.GetOr("")
    }

    /** `isWalletDirty`. */
    predicate WalletDirty()
      reads this
    {
      walletInput != user.walletAddress.GetOr("")
    }

    method TypeUsername(v: string)
      modifies this
      ensures usernameInput == v && bioInput == old(bioInput) && walletInput == old(walletInput)
      ensures walletError == old(walletError) && isSaving == old(isSaving)
    {
      usernameInput := v;
    }

    /** The bio's `onChange`: the text is cut to 280 characters. */
    method TypeBio(v: string)
      modifies this
      ensures |bioInput| <= |v| && |bioInput| <= BioLimit && bioInput == v[..|bioInput|]
      ensures |bioInput| == if |v| <= BioLimit then |v| else BioLimit
      ensures usernameInput == old(usernameInput) && walletInput == old(walletInput)
      ensures walletError == old(walletError) && isSaving == old(isSaving)
    {
      bioInput := Prefix(v, BioLimit);
    }

    /** The wallet's `onChange`, followed by the validation effect. */
    method TypeWallet(v: string)
      modifies this
      ensures Valid() && walletInput == v
      ensures usernameInput == old(usernameInput) && bioInput == old(bioInput) && isSaving == old(isSaving)
    {
      walletInput := v;
      walletError := ValidateWallet(walletInput);
    }

    /** `handleSaveProfile`: the request it sends, if any. */
    method SaveProfile() returns (request: Option<ProfileUpdate>)
      ensures request.Some? <==> UserInfoDirty() && !isSaving
      ensures request.Some? ==> request.value == ProfilePayload(usernameInput, bioInput)
    {
      if !UserInfoDirty() || isSaving {
        return None;
      }
      request := Some(ProfilePayload(usernameInput, bioInput));
    }

    /** `handleSaveWallet`: the `walletAddress` it sends (`None` inside is `null`), if it sends anything. */
    method SaveWallet() returns (request: Option<Option<string>>)
      requires Valid()
      ensures request.Some? <==> WalletDirty() && !isSaving && ValidateWallet(walletInput).None?
      ensures request.Some? ==> request.value == WalletPayload(walletInput)
      ensures request.Some? && request.value.Some? ==> IsPolygonAddress(request.value.value)
    {
      if !WalletDirty() || isSaving || walletError.Some? {
        return None;
      }
      ValidWalletPayload(walletInput);
      request := Some(WalletPayload(walletInput));
    }
  }
}
