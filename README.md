# Hydration-consistent cookie state, in Dafny

This project models the core of next-isomorphic-cookies: the rules that
decide, for a cookie-backed piece of UI state, whether a read sees the
server's cookie snapshot or the live client cookie jar, when a
resynchronisation is due, and how the persisted-state hook builds on those
rules. The goal of those rules is that the first client render shows the
value the server rendered, and that the state is corrected to the real
client cookie right after the first commit.

The model has one module per core source file, a shared `Values` module,
and one module of properties over call sequences:

- `Values` (`values.dfy`): JavaScript's `undefined` as `Option.None`, a
  thrown JSON.parse error as `Result.Err`, and the serialization codec as a
  pair of functions `encode` / `decode`. Where a property needs the codec's
  round trip, it asks for it for the value at hand (`RoundTrips`).
- `Updater` (`updater.dfy`): `Updater<T> = DataUpdater(T) | FunctionUpdater(T -> T)`
  and `UpdatedValueFromUpdater`.
- `UseCookie` (`use_cookie.dfy`): the cookie accessor. `PageState` holds
  what one page instance shares: the immutable snapshot (`None` = `null`),
  the shared hydration flag, the client cookie jar and the number of
  warnings logged. `Apply` gives the effect of each client call on it.
  The class `Page` holds the same four things as fields. One `Page` is
  shared by reference between all accessors of a page, as the flag cell is
  in the source. `ClientCookie` is the client accessor. Its constructor
  reads `needsSync`, and its methods `Retrieve`, `Store`, `Clear` and
  `LayoutEffect` are each specified by `Apply`. The server accessor is
  pure: `ServerRetrieve` reads the snapshot, and `ServerApply` (store and
  clear) returns the page unchanged.
- `HydrationTraces` (`hydration_traces.dfy`): `Run` executes any sequence
  of client calls on any keys, as any number of accessors sharing the page
  would. Its lemmas state the hydration rules over whole sequences.
  `RunServer` does the same for the server accessor.
- `UseSyncWithCookie` (`use_sync_with_cookie.dfy`): the one-shot resync
  trigger, as a class whose `CommitEffects` runs the effects registered at
  mount, once.
- `UseCookieState` (`use_cookie_state.dfy`): the cookie-backed state, with
  client and server classes. Each class holds the state cell `value` and the
  caller's initializer and settings. `UseClientSideCookieState` and
  `UseServerSideCookieState` perform the mount. Because the initial read can
  throw, they return a `Result`.

React is replaced by explicit calls. The first render is a constructor (or
the mount method), and a later render of a mounted client state is
`ClientCookieState.Render`, which recomputes `isSyncing`. The effects that
run after the first commit are `CommitEffects`, in the order the hooks
register them: first the state hook's own accessor lowers the flag, then
the trigger's accessor does, and then the trigger's sync effect runs. The
logger is a warning counter. js-cookie is the `cookies` map.

Points of the code worth knowing, all modelled as written:

- A server `retrieve` of a key that a non-null snapshot lacks calls
  JSON.parse on `undefined`, which throws (src/hooks/useCookie.ts:84). The
  library's own test src/hooks/useCookie.test.tsx:87-96 expects `undefined`
  for that case. The model follows the code: `ServerRetrieve` returns `Err`,
  and `MissingSnapshotKeyFailsServerRender` shows that the server render
  then fails while the client's first render does not.
- The resync callback ignores the value the trigger hands it. It reads the
  cookie a second time and re-runs the full initializer
  (src/hooks/useCookieState.ts:189-196). `ClientCookieState.CommitEffects`
  makes both reads.
- An explicit `retrieve` keeps a stored value as it is and does not run the
  initializer on it (src/hooks/useCookieState.ts:198-202).
- The server `setValue` is the plain setter. It never persists, and the
  server hook ignores `storeOnSet` and `serializer`.

## Model

| member | source | states |
|---|---|---|
| `Updater.FunctionUpdaterAppliesToCurrent` | src/utils/updater.ts:7-17 | `isFunctionUpdater` holds for a function updater, and the updated value is that function applied to the current state |
| `Updater.DataUpdaterIgnoresCurrent` | src/utils/updater.ts:11-20 | a non-function updater is not a function updater, and it yields its own value whatever the current state is |
| `Updater.DataUpdaterIdempotent` | src/utils/updater.ts:19 | applying the same data updater twice gives what applying it once gives |
| `Updater.IsFunctionUpdater` | src/utils/updater.ts:7-9 | the updater-kind test; `FunctionUpdaterAppliesToCurrent` and `DataUpdaterIgnoresCurrent` state that it holds exactly for function updaters |
| `Updater.UpdatedValueFromUpdater` | src/utils/updater.ts:11-20 | applying an updater; `FunctionUpdaterAppliesToCurrent`, `DataUpdaterIgnoresCurrent` and `DataUpdaterIdempotent` state its behaviour |
| `UseCookie.Apply` | src/hooks/useCookie.ts:26-61 | the effect of one client call on the page: the snapshot never changes, the flag falls only in the post-commit effect and never rises, warnings never decrease and only reads add them, and reads and the effect leave the cookie jar alone |
| `UseCookie.ServerRetrieve` | src/hooks/useCookie.ts:83-84 | the server read is `undefined` exactly when there is no snapshot, and any value it returns is the decoded snapshot entry for the key |
| `UseCookie.ServerApply` | src/hooks/useCookie.ts:86-90 | server store and clear; `HydrationTraces.ServerCallsChangeNothing` states that they leave the page unchanged |
| `UseCookie.HydratingReadIgnoresClientJar` | src/hooks/useCookie.ts:46-47 | while hydrating, a client read equals the decoded snapshot entry, and two pages with the same snapshot read the same whatever their cookie jars hold |
| `UseCookie.SettledReadIgnoresSnapshot` | src/hooks/useCookie.ts:46-48 | once the flag is down, a client read equals the decoded live cookie and does not depend on the snapshot |
| `UseCookie.UndefinedExactlyWhenNoEntry` | src/hooks/useCookie.ts:46-54 | a read is `undefined` exactly when the selected source has no entry (a null snapshot or a missing key while hydrating, a missing cookie afterwards); otherwise the entry is decoded and a decode failure propagates |
| `UseCookie.RetrieveWarnsOnlyWithoutSnapshotWhileHydrating` | src/hooks/useCookie.ts:34-41 | one read adds exactly one warning when the snapshot is null and the page is hydrating, and none otherwise; it changes nothing else |
| `UseCookie.WritesTouchOnlyTheirKey` | src/hooks/useCookie.ts:57-61 | a store puts the encoded value under its key, and a clear removes its key; every other key, the snapshot, the flag and the warnings stay as they were |
| `UseCookie.StoreThenRetrieveAfterHydration` | src/hooks/useCookie.ts:46-58 | after hydration, a store followed by a read of the same key gives the stored value back, given the codec's round trip |
| `UseCookie.Page.constructor` | src/wrappers/withCookiesAppWrapper.tsx:22-37 | a page starts with the snapshot (or null), the given flag, the given cookie jar and no warnings |
| `UseCookie.ClientCookie.constructor` | src/hooks/useCookie.ts:20-24 | `needsSync` is "snapshot is null and the flag is up", read when the accessor is obtained |
| `UseCookie.ClientCookie.LayoutEffect` | src/hooks/useCookie.ts:26-29 | the post-commit effect lowers the shared flag and changes nothing else |
| `UseCookie.ClientCookie.Retrieve` | src/hooks/useCookie.ts:31-55 | the read warns when the snapshot is null during hydration, returns the decoded snapshot entry while hydrating and the decoded live cookie afterwards, and changes only the warning count |
| `UseCookie.ClientCookie.Store` | src/hooks/useCookie.ts:57-59 | writes the encoded value under the key and changes nothing else |
| `UseCookie.ClientCookie.Clear` | src/hooks/useCookie.ts:61 | removes the key from the cookie jar and changes nothing else |
| `UseCookie.ServerRetrieveReadsSnapshotOnly` | src/hooks/useCookie.ts:83-84 | the server read depends only on the snapshot: `undefined` without one, the decoded entry when the key is there, and a thrown parse error when the key is missing |
| `UseCookie.ServerAndHydratingClientAgree` | src/hooks/useCookie.ts:83-84 | when the snapshot is null or holds the key, the server read equals a client read made during hydration |
| `HydrationTraces.FlagOnlyFallsInLayoutEffect` | src/hooks/useCookie.ts:26-29 | over any sequence of calls, the snapshot never changes, and the flag is still up exactly when it was up before and no post-commit effect ran |
| `HydrationTraces.HydrationReadsOnlySnapshot` | src/hooks/useCookie.ts:43-47 | while hydrating, every read in any sequence of calls returns the decoded snapshot entry, whatever stores and clears happen in between |
| `HydrationTraces.WarningsCountUnsafeReads` | src/hooks/useCookie.ts:34-41 | a page with a snapshot, or one past hydration, never warns; a hydrating page without a snapshot warns once for every read until the effect runs |
| `HydrationTraces.OtherCallsKeepCookie` | src/hooks/useCookie.ts:57-61 | calls that do not store or clear a key leave its cookie as it was |
| `HydrationTraces.StoreThenRetrieveRoundTrips` | src/hooks/useCookie.ts:46-58 | after hydration, a read returns the last value stored under its key, even with other calls in between that do not write that key |
| `HydrationTraces.LayoutEffectIdempotent` | src/hooks/useCookie.ts:26-29 | running the flag-lowering effect twice is the same as running it once, as happens when two accessors of one component both register it |
| `HydrationTraces.ServerCallsChangeNothing` | src/hooks/useCookie.ts:83-90 | after any sequence of server calls the page is unchanged, and every server read returns what a read of the untouched page returns |
| `UseSyncWithCookie.SyncWithCookie.constructor` | src/hooks/useSyncWithCookie.ts:11-12 | the trigger gets its own accessor for the key, whose `needsSync` is read at render time, and its effect has not run yet |
| `UseSyncWithCookie.SyncWithCookie.CommitEffects` | src/hooks/useSyncWithCookie.ts:14-18 | on the first commit the flag goes down, and the key is read again (from the live cookie jar, with no warning) and passed to the callback exactly when `needsSync` held at render; otherwise nothing is read and no callback runs; later commits change nothing |
| `UseCookieState.Deserialize` | src/hooks/useCookieState.ts:169-176 | the inner retrieve fails exactly when the read fails, with the same error, and is `undefined` exactly when the read is |
| `UseCookieState.RetrievedValue` | src/hooks/useCookieState.ts:201 | `value ?? initializer(value)`; `ClientCookieState.Retrieve` and `ServerCookieState.Retrieve` state it as their result |
| `UseCookieState.ResyncedValue` | src/hooks/useCookieState.ts:189-196 | without a cookie for the key the resync gives `initializer(undefined)`, and it fails only when a cookie is there that does not decode; `ResyncMatchesMountAfterHydration` ties it to the mount |
| `UseCookieState.WithDefaults` | src/hooks/useCookieState.ts:156-160 | a missing `storeOnSet` becomes true, and a missing serializer or deserializer becomes the identity; given options are kept |
| `UseCookieState.FirstClientRenderMatchesServer` | src/hooks/useCookieState.ts:185-187 | when the snapshot is null or holds the key, the client's initial value during hydration equals the server's initial value |
| `UseCookieState.MissingSnapshotKeyFailsServerRender` | src/hooks/useCookieState.ts:280 | when a snapshot lacks the key, the client starts from `initializer(undefined)` while the server's initial read throws |
| `UseCookieState.ResyncMatchesMountAfterHydration` | src/hooks/useCookieState.ts:189-196 | the value the resync sets is the initial value that a mount after hydration would compute from the live cookie |
| `UseCookieState.PersistThenRetrieveRoundTrips` | src/hooks/useCookieState.ts:178-183 | after hydration, a value persisted through the serializer is what the inner retrieve gives back, given that the deserializer and the codec invert the serializer and the encoder on it |
| `UseCookieState.UseClientSideCookieState` | src/hooks/useCookieState.ts:146-196 | the mount computes `initializer(undefined)` when `needsSync` holds and otherwise `initializer(retrieve())`, logs no warning, fails exactly when that read throws, and sets both `isSyncing` and the accessor's `needsSync` (which decides the first commit's resync) to "snapshot is null and the flag is up" |
| `UseCookieState.MountThenFirstCommit` | src/hooks/useCookieState.ts:185-196 | mounted while a resync is due, the component starts from `initializer(undefined)`, and after the first commit its value is the initializer run on the live cookie (or the parse error), the flag is down and no warning was logged |
| `UseCookieState.ClientCookieState.constructor` | src/hooks/useCookieState.ts:244-251 | both accessors serve one key on one page, and `isSyncing` is their `needsSync` at the first render |
| `UseCookieState.ClientCookieState.Render` | src/hooks/useCookieState.ts:162-167 | a later render keeps the value and sets `isSyncing` to `needsSync` as computed now; once the effects have run it is `false` |
| `UseCookieState.ClientCookieState.SetValue` | src/hooks/useCookieState.ts:222-242 | the value becomes the updater's result; when store-on-set is enabled its serialized form is stored once under the key, and otherwise the cookie jar is untouched |
| `UseCookieState.ClientCookieState.Retrieve` | src/hooks/useCookieState.ts:198-202 | the value becomes the retrieved value as it is, or `initializer(undefined)` when nothing is stored; a parse failure leaves it unchanged |
| `UseCookieState.ClientCookieState.Store` | src/hooks/useCookieState.ts:208-215 | stores the serialized current value and leaves the value unchanged |
| `UseCookieState.ClientCookieState.Clear` | src/hooks/useCookieState.ts:217-220 | removes the cookie and resets the value to `initializer(undefined)` |
| `UseCookieState.ClientCookieState.CommitEffects` | src/hooks/useCookieState.ts:189-196 | on the first commit the flag goes down; when `needsSync` held at the first render, the value becomes the full initializer re-run on the live cookie (a parse failure leaves it unchanged); no warning is logged, the cookie jar is untouched, and later commits change nothing |
| `UseCookieState.UseServerSideCookieState` | src/hooks/useCookieState.ts:258-280 | the server mount computes `initializer(retrieve())` from the snapshot, fails exactly when that read throws, and sets `isSyncing` to `needsSync` |
| `UseCookieState.ServerCookieState.constructor` | src/hooks/useCookieState.ts:294-301 | `isSyncing` is the server accessor's `needsSync` |
| `UseCookieState.ServerCookieState.SetValue` | src/hooks/useCookieState.ts:296 | the plain setter: the value becomes the updater's result, and nothing is persisted |
| `UseCookieState.ServerCookieState.Retrieve` | src/hooks/useCookieState.ts:282-285 | the value becomes the snapshot-derived value as it is, or `initializer(undefined)` when there is none; a parse failure leaves it unchanged |
| `UseCookieState.ServerCookieState.Store` | src/hooks/useCookieState.ts:288 | a no-op: the value is unchanged and nothing else can change |
| `UseCookieState.ServerCookieState.Clear` | src/hooks/useCookieState.ts:290-292 | only resets the value to `initializer(undefined)` |

## Left out

- React itself is left out: render scheduling, `useState`, `useCallback` memoisation and the referential stability of the returned functions. Closure identity has no meaning in Dafny. Renders and commits are explicit calls, and state updates take effect at once.
- JSON.stringify and JSON.parse are an abstract codec. JSON's `null` is not modelled, so the `??` fallback of an explicit retrieve fires only on `undefined`.
- `UseCookie.ClientCookie.Store`: encoding is total, so the TypeError JSON.stringify throws on a BigInt or a cyclic value (src/hooks/useCookie.ts:58) is not modelled. In the code that error escapes before anything is written. The contracts of `UseCookie.ClientCookie.Store`, `UseCookieState.ClientCookieState.Store` and `UseCookieState.ClientCookieState.SetValue` (with store-on-set, where the error escapes from the updater and the value is not set) hold only for values JSON can serialize.
- Cookie attributes are not modelled. The accessor's `store` drops them (src/hooks/useCookie.ts:57-58), so `storeOnSet` keeps only its truthiness.
- The provider plumbing is not part of this model: the context, the provider components, `useCookiesInServer` and its "Provider missing" error, and the page wrappers. `Page` is the provider's value, taken as given.
- src/index.ts is not part of this model. It chooses the server or client variants by environment and passes no logger to the client accessor.
- Logging is a counter of `warn` calls. The warning text is not modelled.
- `Updater.UpdatedValueFromUpdater`: the two updater kinds are told apart by constructor, where the code tests `typeof updater === "function"` (src/utils/updater.ts:9). The model is faithful only for state types that are not functions. For a function-valued state, the code would call a value meant as data.
- `UseCookieState.ClientCookieState.SetValue`: stores once per call. React may call an updater function more than once (strict mode), and that is not modelled.
- The mounted state holds one key and one serialized type. Several states on one page are independent apart from the shared `Page`. The call-sequence lemmas cover many keys, but only one value type.
