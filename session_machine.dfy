/**
 The session state machine behind the `useAuth` hook, as pure values.

 A `Hook` value holds everything the hook keeps between calls: the session
 cells (`user`, `isAuthenticated`, the change counter), the validity of the
 credential store, the refresh timer (the handle kept in the ref cell and the
 timers the runtime still holds), whether the store subscription is active,
 and whether a navigation to the entry page was requested. Every operation is
 a transition from the current value and the outcome of at most one backend
 call; `Run` replays a sequence of events from the outside world.
 */
module SessionMachine {

  datatype Option<T> = None | Some(value: T)

  datatype Role = Admin | Member

  /** The identity record the hook keeps for the signed-in account. */
  datatype User = User(id: string, email: string, role: Role)

  /** What a failed backend call threw: whether it is an `Error` instance,
      and its `status` property when it has one. */
  datatype Thrown = Thrown(isError: bool, status: Option<int>)

  /** The outcome of one backend call (`authRefresh` or `authWithPassword`). */
  datatype Reply = Returned(record: User) | Threw(error: Thrown)

  /** The session cells of the hook, with the credential store's validity. */
  datatype Session = Session(user: Option<User>, isAuthenticated: bool, storeValid: bool, changeCounter: nat)

  /** The refresh timer: the handle held by the ref cell, the handles of the
      timers the runtime has armed and not yet fired or cancelled, and the next
      handle the runtime will hand out. */
  datatype Timers = Timers(timeoutRef: Option<nat>, live: set<nat>, nextHandle: nat)

  datatype Hook = Hook(session: Session, timers: Timers, subscribed: bool, navigatedTo: Option<string>)

  /** Something the outside world does to a mounted hook. */
  datatype Event =
    | StoreChange(valid: bool)               // the credential store notifies a change; its new validity
    | CredentialExpires                      // the stored token runs out; the store notifies nobody
    | TimeoutFires(handle: nat, reply: Reply) // the runtime runs a timer; the refresh call's outcome
    | LoginAttempt(reply: Reply)             // `login` is called; the password call's outcome
    | LogoutCall                             // `logout` is called
    | Unmounted                              // the component unmounts: the effect's cleanup runs

  /** The error a refresh treats as "credential rejected": an `Error` whose status is 401. */
  predicate IsUnauthorized(e: Thrown) {
    e.isError && e.status == Some(401)
  }

  /** The pair the hook exposes agrees: authenticated exactly when a user is loaded. */
  predicate Consistent(s: Session) {
    s.isAuthenticated == s.user.Some?
  }

  /** `loadUser` calls the backend exactly when the credential is valid and no user is loaded. */
  predicate AsksBackend(s: Session) {
    s.storeValid && s.user.None?
  }

  /** JavaScript truthiness of the ref cell: `null` and the handle 0 are falsy. */
  predicate Truthy(ref: Option<nat>) {
    ref.Some? && ref.value != 0
  }

  /** What the runtime guarantees about timer handles and what the hook keeps:
      handles are positive and handed out in increasing order, and the only timer
      that can still be armed is the one whose handle the ref cell holds. */
  predicate TimersOk(t: Timers) {
    && 0 < t.nextHandle
    && (t.timeoutRef.Some? ==> 0 < t.timeoutRef.value < t.nextHandle)
    && forall x :: x in t.live ==> t.timeoutRef == Some(x)
  }

  /** The state right after the first render: no user, `isAuthenticated`
      seeded from the store's validity, counter 0, no timer, not subscribed. */
  function Initial(storeValid: bool): (h: Hook)
    ensures h.session.user.None? && h.session.isAuthenticated == storeValid
    ensures h.session.storeValid == storeValid && h.session.changeCounter == 0
    ensures Consistent(h.session) <==> !storeValid
    ensures TimersOk(h.timers) && h.timers.timeoutRef.None? && h.timers.live == {}
    ensures !h.subscribed && h.navigatedTo.None?
  {
    Hook(Session(None, storeValid, storeValid, 0), Timers(None, {}, 1), false, None)
  }

  /** `loadUser`: refresh the session from the backend when that is needed. */
  function LoadUser(s: Session, reply: Reply): (r: Session)
    // a loaded user with a valid credential: nothing happens
    ensures s.storeValid && s.user.Some? ==> r == s
    // an invalid credential: the session is cleared, the backend is not asked
    ensures !s.storeValid ==> r == s.(user := None, isAuthenticated := false)
    // the refresh succeeds: exactly the returned record is loaded
    ensures AsksBackend(s) && reply.Returned? ==>
              r == s.(user := Some(reply.record), isAuthenticated := true)
    // the refresh is rejected with 401: credential, user and flag are all cleared
    ensures AsksBackend(s) && reply.Threw? && IsUnauthorized(reply.error) ==>
              !r.storeValid && r.user.None? && !r.isAuthenticated
    // any other failure: nothing changes
    ensures AsksBackend(s) && reply.Threw? && !IsUnauthorized(reply.error) ==> r == s
    // every write leaves the pair consistent; a refresh never validates the credential
    ensures r == s || Consistent(r)
    ensures r.storeValid ==> s.storeValid
    ensures r.changeCounter == s.changeCounter
  {
    if s.storeValid && s.user.None? then
      match reply
      case Returned(record) => s.(user := Some(record), isAuthenticated := true)
      case Threw(e) =>
        if IsUnauthorized(e) then s.(storeValid := false, isAuthenticated := false, user := None)
        else s
    else if !s.storeValid then
      s.(isAuthenticated := false, user := None)
    else
      s
  }

  /** `clearTimeout` on the handle in the ref cell, when the cell is truthy. */
  function Cancel(t: Timers): (r: Timers)
    ensures r.timeoutRef == t.timeoutRef && r.nextHandle == t.nextHandle && r.live <= t.live
    ensures TimersOk(t) ==> TimersOk(r) && r.live == {}
  {
    if Truthy(t.timeoutRef) then t.(live := t.live - {t.timeoutRef.value}) else t
  }

  /** `debouncedLoadUser`: cancel the pending timer, arm a new one, keep its handle. */
  function Debounce(t: Timers): (r: Timers)
    ensures r.timeoutRef == Some(t.nextHandle) && r.nextHandle == t.nextHandle + 1
    // with the runtime's guarantees, the new timer is the only one pending
    ensures TimersOk(t) ==> TimersOk(r) && r.live == {t.nextHandle}
    ensures TimersOk(t) && t.timeoutRef.Some? ==> r.timeoutRef != t.timeoutRef
  {
    var c := Cancel(t);
    Timers(Some(t.nextHandle), c.live + {t.nextHandle}, t.nextHandle + 1)
  }

  /** The mount effect: request a debounced refresh, then subscribe to the store. */
  function MountEffect(h: Hook): (r: Hook)
    ensures r.session == h.session && r.subscribed && r.navigatedTo == h.navigatedTo
    ensures TimersOk(h.timers) ==> TimersOk(r.timers) && |r.timers.live| == 1
  {
    h.(timers := Debounce(h.timers), subscribed := true)
  }

  /** The effect's cleanup: unsubscribe, then cancel the timer in the ref cell. */
  function CleanupEffect(h: Hook): (r: Hook)
    ensures r.session == h.session && !r.subscribed && r.navigatedTo == h.navigatedTo
    ensures TimersOk(h.timers) ==> TimersOk(r.timers) && r.timers.live == {}
  {
    h.(subscribed := false, timers := Cancel(h.timers))
  }

  /** `login`: the session after the password call, and the boolean returned. */
  function Login(s: Session, reply: Reply): (r: (Session, bool))
    ensures r.1 <==> reply.Returned?
    ensures r.1 ==> r.0.user == Some(reply.record)
    ensures Consistent(r.0) && (r.0.isAuthenticated <==> r.1)
    ensures r.0.changeCounter == s.changeCounter + 1 && r.0.storeValid == s.storeValid
  {
    match reply
    case Returned(record) =>
      (s.(user := Some(record), isAuthenticated := true, changeCounter := s.changeCounter + 1), true)
    case Threw(_) =>
      (s.(user := None, isAuthenticated := false, changeCounter := s.changeCounter + 1), false)
  }

  /** `logout`: clear the store and the session, ask to navigate to "/". */
  function Logout(h: Hook): (r: Hook)
    ensures !r.session.storeValid && r.session.user.None? && !r.session.isAuthenticated
    ensures Consistent(r.session) && r.navigatedTo == Some("/")
    ensures r.session.changeCounter == h.session.changeCounter
    ensures r.timers == h.timers && r.subscribed == h.subscribed
  {
    h.(session := h.session.(storeValid := false, user := None, isAuthenticated := false),
       navigatedTo := Some("/"))
  }

  /** The hook after one event. None of the modelled events subscribes: the
      effect's re-run after a change of `user` is not one of them. */
  function Step(h: Hook, e: Event): (r: Hook)
    ensures TimersOk(h.timers) ==> TimersOk(r.timers)
    ensures Consistent(h.session) ==> Consistent(r.session)
    ensures r.subscribed ==> h.subscribed
  {
    match e
    case StoreChange(valid) =>
      h.(session := h.session.(storeValid := valid),
         timers := if h.subscribed then Debounce(h.timers) else h.timers)
    case CredentialExpires => h.(session := h.session.(storeValid := false))
    case TimeoutFires(handle, reply) =>
      if handle in h.timers.live then
        h.(session := LoadUser(h.session, reply), timers := h.timers.(live := h.timers.live - {handle}))
      else
        h
    case LoginAttempt(reply) => h.(session := Login(h.session, reply).0)
    case LogoutCall => Logout(h)
    case Unmounted => CleanupEffect(h)
  }

  /** The hook after a sequence of the modelled events, in order. */
  function Run(h: Hook, events: seq<Event>): (r: Hook)
    ensures TimersOk(h.timers) ==> TimersOk(r.timers)
    ensures Consistent(h.session) ==> Consistent(r.session)
    ensures r.subscribed ==> h.subscribed
    decreases |events|
  {
    if events == [] then
      h
    else
      Run(Step(h, events[0]), events[1..])
  }

  /** The runtime's guarantees leave at most one timer pending. */
  lemma AtMostOnePending(t: Timers)
    requires TimersOk(t)
    ensures |t.live| <= 1
  {
    if t.live != {} {
      assert t.live == {t.timeoutRef.value};
    }
  }

  /** A refresh clears a valid credential exactly when the backend was asked
      and threw an `Error` whose status is 401. */
  lemma OnlyA401ClearsTheCredential(s: Session, reply: Reply)
    ensures (s.storeValid && !LoadUser(s, reply).storeValid)
        <==> (AsksBackend(s) && reply.Threw? && IsUnauthorized(reply.error))
  {
  }

  /** Every handle the runtime hands out passes the truthiness test, so the
      ref cell's timer is always the one cancelled. */
  lemma HandedOutHandlesAreTruthy(t: Timers)
    requires TimersOk(t) && t.timeoutRef.Some?
    ensures Truthy(t.timeoutRef)
  {
  }

  /** A mounted hook: first render, then the mount effect. */
  function Mounted(storeValid: bool): (h: Hook)
    ensures TimersOk(h.timers) && h.timers.live == {1} && h.subscribed
    ensures h.session == Initial(storeValid).session
  {
    MountEffect(Initial(storeValid))
  }

  /** Whatever happens after mounting, at most one refresh timer is pending. */
  lemma AtMostOneTimerEverPending(storeValid: bool, events: seq<Event>)
    ensures |Run(Mounted(storeValid), events).timers.live| <= 1
  {
    AtMostOnePending(Run(Mounted(storeValid), events).timers);
  }

  /** The authenticated flag without a user is reachable: a hook mounted on a
      valid credential whose first refresh fails with a server error keeps
      `isAuthenticated` true and `user` null. */
  lemma TornPairIsReachable(serverError: Thrown)
    requires !IsUnauthorized(serverError)
    ensures var r := Run(Mounted(true), [TimeoutFires(1, Threw(serverError))]);
            r.session.isAuthenticated && r.session.user.None?
  {
  }

  /** Refreshes are idempotent: once a user is loaded under a valid credential,
      timers firing (with any outcome) and store changes that keep the
      credential valid never change the session. */
  lemma {:induction false} RefreshIsIdempotent(h: Hook, events: seq<Event>)
    requires h.session.storeValid && h.session.user.Some?
    requires forall i :: 0 <= i < |events| ==> events[i].TimeoutFires? || events[i] == StoreChange(true)
    ensures Run(h, events).session == h.session
    decreases |events|
  {
    if events != [] {
      var next := Step(h, events[0]);
      assert next.session == h.session;
      assert forall i :: 0 <= i < |events[1..]| ==> events[1..][i] == events[i + 1];
      RefreshIsIdempotent(next, events[1..]);
    }
  }

  /** A burst of store changes on a subscribed hook leaves exactly one timer
      pending: the one armed by the last change. */
  lemma {:induction false} DebounceCoalesces(h: Hook, events: seq<Event>)
    requires h.subscribed && TimersOk(h.timers) && events != []
    requires forall i :: 0 <= i < |events| ==> events[i].StoreChange?
    ensures Run(h, events).timers.live == {h.timers.nextHandle + |events| - 1}
    ensures Run(h, events).session == h.session.(storeValid := events[|events| - 1].valid)
    decreases |events|
  {
    var next := Step(h, events[0]);
    assert next.timers.live == {h.timers.nextHandle};
    if |events| > 1 {
      assert forall i :: 0 <= i < |events[1..]| ==> events[1..][i] == events[i + 1];
      DebounceCoalesces(next, events[1..]);
    } else {
      assert events[1..] == [];
    }
  }

  /** Firing the pending timer runs `loadUser` once: any later firing does nothing. */
  lemma FiringConsumesTheTimer(h: Hook, handle: nat, first: Reply, later: nat, second: Reply)
    requires TimersOk(h.timers) && handle in h.timers.live
    ensures Run(h, [TimeoutFires(handle, first), TimeoutFires(later, second)]).session
         == LoadUser(h.session, first)
  {
    AtMostOnePending(h.timers);
    assert h.timers.live == {handle};
    var next := Step(h, TimeoutFires(handle, first));
    assert next.timers.live == {};
    var events := [TimeoutFires(handle, first), TimeoutFires(later, second)];
    assert events[1..] == [TimeoutFires(later, second)];
    assert Run(next, [TimeoutFires(later, second)]) == Run(Step(next, TimeoutFires(later, second)), []);
  }

  /** A token that expires silently while a user is loaded is only noticed when
      an already pending timer fires: expiry arms nothing, and the firing clears
      the session without asking the backend. */
  lemma ExpiryIsNoticedByThePendingTimer(h: Hook, handle: nat, reply: Reply)
    requires TimersOk(h.timers) && handle in h.timers.live && h.session.user.Some?
    ensures Step(h, CredentialExpires).timers == h.timers
    ensures Run(h, [CredentialExpires, TimeoutFires(handle, reply)]).session
         == h.session.(storeValid := false, user := None, isAuthenticated := false)
  {
    var events := [CredentialExpires, TimeoutFires(handle, reply)];
    var next := Step(h, CredentialExpires);
    assert events[1..] == [TimeoutFires(handle, reply)];
    assert Run(next, events[1..]) == Run(Step(next, events[1]), []);
  }

  /** Once unsubscribed with no timer pending, store changes and stray timer
      callbacks never reach `loadUser`: user, flag and counter stay put. */
  lemma {:induction false} DetachedHookStaysQuiet(h: Hook, events: seq<Event>)
    requires !h.subscribed && h.timers.live == {}
    requires forall i :: 0 <= i < |events| ==>
               events[i].StoreChange? || events[i].CredentialExpires? || events[i].TimeoutFires?
    ensures var r := Run(h, events);
            && r.timers.live == {} && !r.subscribed
            && r.session.user == h.session.user
            && r.session.isAuthenticated == h.session.isAuthenticated
            && r.session.changeCounter == h.session.changeCounter
    decreases |events|
  {
    if events != [] {
      var next := Step(h, events[0]);
      assert next.timers.live == {} && !next.subscribed;
      assert forall i :: 0 <= i < |events[1..]| ==> events[1..][i] == events[i + 1];
      DetachedHookStaysQuiet(next, events[1..]);
    }
  }

  /** After the cleanup effect, no `loadUser` runs, whatever the store and the
      runtime do afterwards. */
  lemma TeardownStopsRefreshes(h: Hook, events: seq<Event>)
    requires TimersOk(h.timers)
    requires forall i :: 0 <= i < |events| ==>
               events[i].StoreChange? || events[i].CredentialExpires? || events[i].TimeoutFires?
    ensures var r := Run(Step(h, Unmounted), events);
            && r.timers.live == {} && !r.subscribed
            && r.session.user == h.session.user
            && r.session.isAuthenticated == h.session.isAuthenticated
  {
    DetachedHookStaysQuiet(Step(h, Unmounted), events);
  }
}
