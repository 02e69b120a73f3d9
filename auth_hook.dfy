/**
 The `useAuth` hook as an object whose state cells are updated in place.

 Each field is one cell of the hook: the `user`, `isAuthenticated` and
 change-counter state, the credential store's validity, the ref cell holding
 the refresh timer's handle, the runtime's pending timers, the store
 subscription and the requested navigation. Every method changes the cells
 step by step, as the hook's callbacks do, and is proved to land exactly on
 the transition `SessionMachine` defines for it.
 */
module AuthHook {
  import opened SessionMachine

  class UseAuth {
    var user: Option<User>
    var isAuthenticated: bool
    var authChangeCounter: nat
    var storeValid: bool
    var refreshTimeoutRef: Option<nat>
    var liveTimers: set<nat>
    var nextHandle: nat
    var subscribed: bool
    var navigatedTo: Option<string>

    /** The cells as a `SessionMachine.Hook` value. */
    function Snapshot(): Hook
      reads this
    {
      Hook(Session(user, isAuthenticated, storeValid, authChangeCounter),
           Timers(refreshTimeoutRef, liveTimers, nextHandle), subscribed, navigatedTo)
    }

    ghost predicate Valid()
      reads this
    {
      TimersOk(Snapshot().timers)
    }

    /** The first render: the state cells get their initial values. */
    constructor (storeIsValid: bool)
      ensures Valid() && Snapshot() == Initial(storeIsValid)
      ensures user.None? && isAuthenticated == storeIsValid
    {
      user := None;
      isAuthenticated := storeIsValid;
      authChangeCounter := 0;
      storeValid := storeIsValid;
      refreshTimeoutRef := None;
      liveTimers := {};
      nextHandle := 1;
      subscribed := false;
      navigatedTo := None;
    }

    /** `loadUser`, given what `authRefresh` would answer; `called` tells
        whether the backend was asked. */
    method LoadUser(reply: Reply) returns (called: bool)
      requires Valid()
      modifies this
      ensures Valid()
      ensures called == AsksBackend(old(Snapshot()).session)
      ensures Snapshot() == old(Snapshot()).(session := SessionMachine.LoadUser(old(Snapshot()).session, reply))
    {
      if storeValid && user.None? {
        called := true;
        match reply
        case Returned(record) =>
          user := Some(record);
          isAuthenticated := true;
        case Threw(e) =>
          if IsUnauthorized(e) {
            storeValid := false;
            isAuthenticated := false;
            user := None;
          }
      } else {
        called := false;
        if !storeValid {
          isAuthenticated := false;
          user := None;
        }
      }
    }

    /** `debouncedLoadUser`: clear the timer in the ref cell, arm a new one. */
    method DebouncedLoadUser()
      requires Valid()
      modifies this
      ensures Valid() && Snapshot() == old(Snapshot()).(timers := Debounce(old(Snapshot()).timers))
      ensures refreshTimeoutRef == Some(old(nextHandle)) && liveTimers == {old(nextHandle)}
    {
      if Truthy(refreshTimeoutRef) {
        liveTimers := liveTimers - {refreshTimeoutRef.value};
      }
      var handle := nextHandle;
      nextHandle := nextHandle + 1;
      liveTimers := liveTimers + {handle};
      refreshTimeoutRef := Some(handle);
    }

    /** The mount effect: one debounced refresh, then the store subscription. */
    method Mount()
      requires Valid()
      modifies this
      ensures Valid() && Snapshot() == MountEffect(old(Snapshot()))
      ensures |liveTimers| == 1 && subscribed
    {
      DebouncedLoadUser();
      subscribed := true;
    }

    /** The store's change callback: the store now reports `valid`; while the
        subscription is active the refresh is re-armed. */
    method OnStoreChange(valid: bool)
      requires Valid()
      modifies this
      ensures Valid() && Snapshot() == Step(old(Snapshot()), StoreChange(valid))
    {
      storeValid := valid;
      if subscribed {
        DebouncedLoadUser();
      }
    }

    /** The stored token runs out: the store turns invalid and, since it
        notifies nobody, no refresh is armed. */
    method ExpireCredential()
      requires Valid()
      modifies this
      ensures Valid() && Snapshot() == Step(old(Snapshot()), CredentialExpires)
      ensures !storeValid && liveTimers == old(liveTimers)
    {
      storeValid := false;
    }

    /** The runtime runs the timer `handle`; only a pending timer does anything,
        and then it runs `loadUser` once. */
    method OnTimeout(handle: nat, reply: Reply) returns (ran: bool)
      requires Valid()
      modifies this
      ensures Valid() && Snapshot() == Step(old(Snapshot()), TimeoutFires(handle, reply))
      ensures ran == (handle in old(liveTimers)) && (ran ==> liveTimers == {})
    {
      ran := handle in liveTimers;
      if ran {
        liveTimers := liveTimers - {handle};
        var _ := LoadUser(reply);
      }
    }

    /** `login`, given what `authWithPassword` would answer; never fails. */
    method Login(reply: Reply) returns (ok: bool)
      requires Valid()
      modifies this
      ensures Valid()
      ensures Snapshot() == Step(old(Snapshot()), LoginAttempt(reply))
      ensures ok == reply.Returned? && isAuthenticated == ok
      ensures ok ==> user == Some(reply.record)
      ensures !ok ==> user.None?
      ensures authChangeCounter == old(authChangeCounter) + 1
    {
      match reply
      case Returned(record) =>
        user := Some(record);
        isAuthenticated := true;
        authChangeCounter := authChangeCounter + 1;
        ok := true;
      case Threw(_) =>
        user := None;
        isAuthenticated := false;
        authChangeCounter := authChangeCounter + 1;
        ok := false;
    }

    /** `logout`: whatever the state, the store and the session are cleared and
        navigation to "/" is requested. */
    method Logout()
      requires Valid()
      modifies this
      ensures Valid() && Snapshot() == Step(old(Snapshot()), LogoutCall)
      ensures !storeValid && user.None? && !isAuthenticated && navigatedTo == Some("/")
    {
      storeValid := false;
      user := None;
      isAuthenticated := false;
      navigatedTo := Some("/");
    }

    /** The effect's cleanup: unsubscribe and cancel the timer in the ref cell,
        leaving no timer pending. */
    method Unmount()
      requires Valid()
      modifies this
      ensures Valid() && Snapshot() == Step(old(Snapshot()), Unmounted)
      ensures !subscribed && liveTimers == {}
    {
      subscribed := false;
      if Truthy(refreshTimeoutRef) {
        liveTimers := liveTimers - {refreshTimeoutRef.value};
      }
    }
  }

  /** A caller's view: mount on a valid credential, three store changes in a
      row, the single pending timer fires with a successful refresh, and a
      second timer callback finds nothing to run. */
  method MountThenRefresh(record: User) returns (first: bool, second: bool)
    ensures first && !second
  {
    var hook := new UseAuth(true);
    hook.Mount();
    hook.OnStoreChange(true);
    hook.OnStoreChange(true);
    hook.OnStoreChange(true);
    assert hook.liveTimers == {4};
    first := hook.OnTimeout(4, Returned(record));
    assert hook.user == Some(record) && hook.isAuthenticated;
    second := hook.OnTimeout(4, Returned(record));
  }
}
