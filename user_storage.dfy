/**
 * `src/lib/api/user-storage.ts`: the cached user under the `localStorage` key
 * `dualguard_user`. JSON serialisation is taken to round-trip, so the stored text is
 * either the serialised user, the empty string, or text that does not parse.
 */
module UserStorage {
  import opened Common
  import opened Entities

  const UserStorageKey := "dualguard_user"

  datatype StoredText = Serialized(user: User) | EmptyText | Unparsable

  /** The entry under `dualguard_user`: absent, or a string. */
  datatype Slot = Missing | Stored(text: StoredText)

  /**
   * How the browser's storage behaves: it works; `setItem` throws (quota exceeded); or
   * every access throws (storage disabled, as in some private modes and sandboxed frames).
   */
  datatype Access = Works | QuotaFull | Blocked

  datatype LoadResult = Loaded(user: Option<User>) | Threw

  /** The entry after `saveUserToStorage(user)`; every storage error is swallowed. */
  function AfterSave(slot: Slot, access: Access, user: Option<User>): Slot {
    if access == Blocked then slot
    else if user.Some? then (if access == QuotaFull then slot else Stored(Serialized(user.value)))
    else Missing
  }

  /** The entry after `clearUserFromStorage()`. */
  function AfterClear(slot: Slot, access: Access): Slot {
    if access == Blocked then slot else Missing
  }

  /** What `loadUserFromStorage()` returns when the `removeItem` in its handler is guarded like the other calls. */
  function LoadResultOf(slot: Slot, access: Access): LoadResult {
    if access == Blocked then Loaded(None)
    else match slot
      case Missing => Loaded(None)
      case Stored(EmptyText) => Loaded(None)
      case Stored(Serialized(u)) => Loaded(Some(u))
      case Stored(Unparsable) => Loaded(None)
  }

  /** What `loadUserFromStorage()` returns as written: the handler's unguarded `removeItem` rethrows a blocked storage. */
  function LoadResultAsWritten(slot: Slot, access: Access): LoadResult {
    if access == Blocked then Threw else LoadResultOf(slot, access)
  }

  /** The entry after loading: an unparsable entry is removed, anything else stays. */
  function AfterLoad(slot: Slot, access: Access): Slot {
    if access != Blocked && slot == Stored(Unparsable) then Missing else slot
  }

  /** Saving a user and loading it back gives that user, whenever storage accepts the write. */
  lemma SaveThenLoad(slot: Slot, access: Access, u: User)
    requires access == Works
    ensures LoadResultOf(AfterSave(slot, access, Some(u)), access) == Loaded(Some(u))
    ensures AfterLoad(AfterSave(slot, access, Some(u)), access) == Stored(Serialized(u))
  {
  }

  /** Saving `null` removes the entry, so a later load finds nothing. */
  lemma SaveNullThenLoad(slot: Slot, access: Access)
    requires access != Blocked
    ensures AfterSave(slot, access, None) == Missing
    ensures LoadResultOf(AfterSave(slot, access, None), access) == Loaded(None)
  {
  }

  /** An unparsable entry is deleted by the load that finds it, and that load returns null. */
  lemma CorruptEntryIsDropped(access: Access)
    requires access != Blocked
    ensures LoadResultOf(Stored(Unparsable), access) == Loaded(None)
    ensures AfterLoad(Stored(Unparsable), access) == Missing
  {
  }

  /** After clearing, a load returns null. */
  lemma ClearThenLoad(slot: Slot, access: Access)
    ensures LoadResultOf(AfterClear(slot, access), access) == Loaded(None)
  {
  }

  /** The guarded load never throws, and returns a user only when that user is what is stored. */
  lemma LoadNeverThrows(slot: Slot, access: Access)
    ensures LoadResultOf(slot, access).Loaded?
    ensures LoadResultOf(slot, access).user.Some? <==> access != Blocked && slot.Stored? && slot.text.Serialized?
    ensures LoadResultOf(slot, access).user.Some? ==> LoadResultOf(slot, access).user.value == slot.text.user
  {
  }

  /** As written, a load from a blocked storage rethrows from its error handler. */
  lemma LoadAsWrittenThrowsWhenBlocked(slot: Slot)
    ensures LoadResultAsWritten(slot, Blocked) == Threw
    ensures forall a: Access :: a != Blocked ==> LoadResultAsWritten(slot, a) == LoadResultOf(slot, a)
  {
  }

  class UserStore {
    /** `localStorage['dualguard_user']`. */
    var slot: Slot
    const access: Access

    constructor(slot: Slot, access: Access)
      ensures this.slot == slot && this.access == access
    {
      this.slot := slot;
      this.access := access;
    }

    /** `localStorage.setItem`; throws when the storage refuses writes. */
    method SetItem(text: StoredText) returns (threw: bool)
      modifies this
      ensures threw == (access != Works)
      ensures slot == if threw then old(slot) else Stored(text)
    {
      threw := access != Works;
      if !threw {
        slot := Stored(text);
      }
    }

    /** `localStorage.removeItem`; throws only when storage is blocked. */
    method RemoveItem() returns (threw: bool)
      modifies this
      ensures threw == (access == Blocked)
      ensures slot == if threw then old(slot) else Missing
    {
      threw := access == Blocked;
      if !threw {
        slot := Missing;
      }
    }

    /** `saveUserToStorage`. */
    method Save(user: Option<User>)
      modifies this
      ensures slot == AfterSave(old(slot), access, user)
    {
      var threw;
      if user.Some? {
        threw := SetItem(Serialized(user.value));
      } else {
        threw := RemoveItem();
      }
    }

    /** `loadUserFromStorage`, with the handler's `removeItem` guarded. */
    method Load() returns (r: LoadResult)
      modifies this
      ensures r == LoadResultOf(old(slot), access)
      ensures slot == AfterLoad(old(slot), access)
    {
      if access == Blocked {
        return Loaded(None);
      }
      if slot == Missing || slot == Stored(EmptyText) {
        return Loaded(None);
      }
      if slot.text.Unparsable? {
        var threw := RemoveItem();
        return Loaded(None);
      }
      return Loaded(Some(slot.text.user));
    }

    /** `loadUserFromStorage` as written. */
    method LoadAsWritten() returns (r: LoadResult)
      modifies this
      ensures r == LoadResultAsWritten(old(slot), access)
      ensures slot == AfterLoad(old(slot), access)
    {
      if access == Blocked {
        var threw := RemoveItem();
        return Threw;
      }
      r := Load();
    }

    /** `clearUserFromStorage`. */
    method Clear()
      modifies this
      ensures slot == AfterClear(old(slot), access)
    {
      var threw := RemoveItem();
    }
  }
}
