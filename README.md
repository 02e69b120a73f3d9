# useAuth session controller, modelled in Dafny

The dashboard keeps the signed-in user in a React hook, `useAuth`, built on a
PocketBase client. Behind the hook sits a small sequential controller. It holds
these cells:

- `user`: an optional `{id, email, role}` record;
- `isAuthenticated`;
- a change counter bumped by `login`;
- a ref cell holding the handle of the pending refresh timer.

It reads and clears the PocketBase credential store. `loadUser` refreshes the
session from the backend. `debouncedLoadUser` re-arms a 30-second timer that
runs `loadUser`. The mount effect arms one refresh and subscribes to store
changes. The cleanup unsubscribes and cancels the timer. `login` and `logout`
move the session to fixed end states.

The project has two modules:

- `SessionMachine` (`session_machine.dfy`) describes the controller as values.
  A `Hook` holds the session cells, the store's validity, the timers, the
  subscription and the requested navigation. Each operation is a function.
  An `Event` is something the outside world does: a store change, a token
  that expires without the store notifying anyone, a timer firing with the
  refresh call's outcome, a login with the password call's
  outcome, a logout, or an unmount. `Run` replays a sequence of events. The
  lemmas are about traces: refresh idempotence, debounce coalescing, a timer
  that runs once, silence after teardown, and at most one pending timer.
- `AuthHook` (`auth_hook.dfy`) is the hook as the class `UseAuth`. Its fields
  are the hook's cells. Its methods update them step by step, as the callbacks
  do. Each method is proved to end in the state that `SessionMachine` gives
  for that operation.

Backend calls are inputs. A `Reply` is either the returned record or what was
thrown. What was thrown is recorded as whether it is an `Error` and its
`status`, if it has one. Only an `Error` with status 401 counts as
unauthorized.

The timer is modelled in two parts:

- the handle stored in the ref cell, which is never reset after the timer fires;
- the set of timers the runtime still holds.

The ref cell is tested for JavaScript truthiness, so a handle of 0 would skip
the `clearTimeout`. The timers section of the HTML Living Standard makes
handles greater than zero. `TimersOk` records that, so at most one timer is
ever pending.

One might expect `isAuthenticated` to imply a loaded user. The code does not
keep that:

- `isAuthenticated` starts as the store's validity while `user` starts null;
- a refresh that fails with an error other than 401 leaves that pair as it was.

`TornPairIsReachable` shows a reachable state with the flag set and no user.
The model proves the narrower properties instead:

- every branch that writes the pair leaves it consistent (the `ensures` of
  `LoadUser`, `Login` and `Logout`);
- a consistent pair stays consistent along any trace (`Run`).

## Model

| member | source | states |
|---|---|---|
| `SessionMachine.OnlyA401ClearsTheCredential` | neeom-modular-dashboard/src/hooks/useAuth.ts:34-35 | a refresh turns a valid credential invalid exactly when the backend was asked and threw an `Error` whose `status` is 401 (`IsUnauthorized`) |
| `SessionMachine.HandedOutHandlesAreTruthy` | neeom-modular-dashboard/src/hooks/useAuth.ts:47 | every handle the runtime hands out passes the `if (refreshTimeoutRef.current)` test (`Truthy`), so the ref cell's timer is always cancelled (the same test guards the cleanup at line 62) |
| `SessionMachine.Initial` | neeom-modular-dashboard/src/hooks/useAuth.ts:13-16 | no user, `isAuthenticated` equals the store's validity, counter 0, ref cell null and no timer pending; the pair is consistent exactly when the credential is invalid |
| `SessionMachine.LoadUser` | neeom-modular-dashboard/src/hooks/useAuth.ts:22-44 | valid credential with a user loaded: nothing changes; invalid credential: user null and flag false; success: exactly the returned record is loaded and the flag set; 401: credential, user and flag cleared; any other error: nothing changes; any write leaves the pair consistent; a refresh never validates the credential and never touches the counter |
| `SessionMachine.Cancel` | neeom-modular-dashboard/src/hooks/useAuth.ts:47-49 | only removes a timer; with the runtime's handle guarantees, no timer is left pending |
| `SessionMachine.Debounce` | neeom-modular-dashboard/src/hooks/useAuth.ts:46-51 | the ref cell holds the newly armed handle, which differs from the previous one, and that timer is the only one pending |
| `SessionMachine.MountEffect` | neeom-modular-dashboard/src/hooks/useAuth.ts:53-59 | the session is untouched, the hook is subscribed, and exactly one timer is pending |
| `SessionMachine.CleanupEffect` | neeom-modular-dashboard/src/hooks/useAuth.ts:60-65 | the session is untouched, the hook is unsubscribed, and no timer is pending |
| `SessionMachine.Login` | neeom-modular-dashboard/src/hooks/useAuth.ts:68-90 | returns true exactly when the backend returned a record, which becomes the user; the flag equals the result; the pair is consistent; the counter goes up by one; the credential's validity is untouched |
| `SessionMachine.Logout` | neeom-modular-dashboard/src/hooks/useAuth.ts:93-99 | whatever the prior state: credential invalid, user null, flag false, navigation to "/" requested; counter, timers and subscription untouched |
| `SessionMachine.Step` | neeom-modular-dashboard/src/hooks/useAuth.ts:53-99 | every modelled event keeps the timer invariant and a consistent pair; none of them subscribes, because the effect's re-run after a change of `user` is not modelled |
| `SessionMachine.Run` | neeom-modular-dashboard/src/hooks/useAuth.ts:53-66 | any sequence of modelled events keeps the timer invariant and a consistent pair; none of them subscribes, because the effect's re-run after a change of `user` is not modelled |
| `SessionMachine.AtMostOnePending` | neeom-modular-dashboard/src/hooks/useAuth.ts:46-51 | under the timer invariant at most one timer is pending |
| `SessionMachine.AtMostOneTimerEverPending` | neeom-modular-dashboard/src/hooks/useAuth.ts:46-66 | after mounting, whatever events follow, at most one refresh timer is pending |
| `SessionMachine.Mounted` | neeom-modular-dashboard/src/hooks/useAuth.ts:13-59 | a mounted hook is subscribed with exactly the first timer pending and the initial session |
| `SessionMachine.TornPairIsReachable` | neeom-modular-dashboard/src/hooks/useAuth.ts:13-39 | mounting on a valid credential and failing the first refresh with a non-401 error leaves `isAuthenticated` true with no user |
| `SessionMachine.RefreshIsIdempotent` | neeom-modular-dashboard/src/hooks/useAuth.ts:22-44 | with a user loaded under a valid credential, any sequence of timer firings and store changes that keep the credential valid leaves the session unchanged |
| `SessionMachine.DebounceCoalesces` | neeom-modular-dashboard/src/hooks/useAuth.ts:46-58 | a burst of store changes on a subscribed hook leaves exactly one timer pending, the one armed by the last change, and the session differs only in the last reported validity |
| `SessionMachine.FiringConsumesTheTimer` | neeom-modular-dashboard/src/hooks/useAuth.ts:46-51 | firing the pending timer runs `loadUser` once; a second firing of any handle changes nothing |
| `SessionMachine.ExpiryIsNoticedByThePendingTimer` | neeom-modular-dashboard/src/hooks/useAuth.ts:40-43 | a token that expires silently while a user is loaded arms nothing; the already pending timer then clears user and flag without asking the backend |
| `SessionMachine.DetachedHookStaysQuiet` | neeom-modular-dashboard/src/hooks/useAuth.ts:56-65 | an unsubscribed hook with no pending timer never re-arms and never changes user, flag or counter, whatever store changes, token expiries and timer callbacks follow |
| `SessionMachine.TeardownStopsRefreshes` | neeom-modular-dashboard/src/hooks/useAuth.ts:60-65 | after the cleanup no `loadUser` runs: no timer is pending, and user and flag stay as they were, whatever store changes, token expiries and timer callbacks follow |
| `AuthHook.UseAuth.constructor` | neeom-modular-dashboard/src/hooks/useAuth.ts:13-16 | the cells start as `SessionMachine.Initial` says: user null, flag equal to the store's validity |
| `AuthHook.UseAuth.LoadUser` | neeom-modular-dashboard/src/hooks/useAuth.ts:22-44 | reports whether the backend was asked (valid credential and no user) and ends in the `SessionMachine.LoadUser` state |
| `AuthHook.UseAuth.DebouncedLoadUser` | neeom-modular-dashboard/src/hooks/useAuth.ts:46-51 | the ref cell holds the new handle and that timer is the only one pending, as `SessionMachine.Debounce` says |
| `AuthHook.UseAuth.Mount` | neeom-modular-dashboard/src/hooks/useAuth.ts:53-59 | exactly one timer pending and subscribed, as `SessionMachine.MountEffect` says |
| `AuthHook.UseAuth.OnStoreChange` | neeom-modular-dashboard/src/hooks/useAuth.ts:56-58 | records the store's new validity and, while subscribed, re-arms the debounce |
| `AuthHook.UseAuth.ExpireCredential` | neeom-modular-dashboard/src/hooks/useAuth.ts:23 | the credential turns invalid and no timer is armed or cancelled, since expiry sends no change notification |
| `AuthHook.UseAuth.OnTimeout` | neeom-modular-dashboard/src/hooks/useAuth.ts:50 | only a pending timer runs `loadUser`, and afterwards no timer is pending |
| `AuthHook.UseAuth.Login` | neeom-modular-dashboard/src/hooks/useAuth.ts:68-90 | returns true exactly on success, with the returned record loaded; on failure user null and flag false; counter plus one either way |
| `AuthHook.UseAuth.Logout` | neeom-modular-dashboard/src/hooks/useAuth.ts:93-99 | credential invalid, user null, flag false, navigation to "/" requested |
| `AuthHook.UseAuth.Unmount` | neeom-modular-dashboard/src/hooks/useAuth.ts:60-65 | unsubscribed and no timer pending |
| `AuthHook.MountThenRefresh` | neeom-modular-dashboard/src/hooks/useAuth.ts:46-58 | a client of the class: three store changes after mounting leave one timer; firing it loads the user, and firing it again does nothing |

## Left out

- `neeom-modular-dashboard/src/components/Dashboard.tsx` is not part of this model. It is rendering, metric fetching over the network, console logging and a floating-point revenue sum. Its role checks only read the session.
- The PocketBase calls `authRefresh`, `authWithPassword`, `authStore.isValid` and `authStore.clear` are not modelled inside. Each call's outcome is an input `Reply`. The store's validity is the boolean `storeValid`.
- `login`'s e-mail and password arguments are not modelled. The `Reply` stands for what `authWithPassword(email, password)` answers.
- The record's `role` is taken to be `admin` or `member`, as the hook's `User` type declares. Other strings from the backend are not modelled.
- `SessionMachine.Login`: does not set the store's validity on success. That write happens inside the PocketBase client, not in the hook. A later `StoreChange` event delivers it.
- `SessionMachine.LoadUser`: a successful `authRefresh` also saves the refreshed token inside the PocketBase client. As with `login`, that write and its change notification are a later `StoreChange` event, not part of the refresh.
- `authStore.clear()` in `logout` and in the 401 path notifies the store's change callbacks. Here that notification is a separate `StoreChange` event that the environment may deliver. It is not part of the same step.
- The model lets any event come between a call and the `StoreChange` that stands for the library's store write, an ordering the hook does not allow. For example, a timer armed before a successful `LoginAttempt` can still fire and, with the credential still invalid, clear the user; in the hook the library's notification re-arms the debounce during the login call and cancels that timer. The lemmas quantify over all traces, so this extra freedom weakens none of them.
- The token's expiry time is not modelled. The store's validity is read live, and expiry sends no change notification, so it is the `CredentialExpires` event, which arms no timer.
- The 30000 ms delay and the clock are not modelled. A pending timer fires when a `TimeoutFires` event names it. The runtime's handles are taken to count up from 1.
- React's re-render scheduling is not modelled. In particular, the effect re-runs whenever `user` changes, because the identity of `loadUser` changes with it, so a cleanup and a new mount effect run. Each operation is one atomic step over the current state.
- The stale closure over `user` in a timer's `loadUser` is not modelled. A fired timer reads the current session.
- Interleavings across `await` are not modelled. Each backend call is one step with a given outcome.
- `window.location.href = "/"` is modelled only as the recorded request `navigatedTo == Some("/")`. The page reload it causes is not modelled. `console` logging is left out.
