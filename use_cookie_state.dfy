/** Cookie-backed state (src/hooks/useCookieState.ts): one state value
    seeded from the cookie accessor, corrected by the resync trigger after
    the first commit, with explicit retrieve / store / clear and an
    optional store on every set. A client and a server variant. */
module UseCookieState {
  import opened Values
  import opened Updater
  import opened UseCookie
  import opened UseSyncWithCookie

  /** `storeOnSet`: `true`, `false`, or an object carrying cookie
      attributes; an object counts as enabled. */
  datatype StoreOnSetOption =
    | StoreOnSetFlag(enabled: bool)
    | StoreOnSetAttributes(attributes: map<string, string>)

  /** `Boolean(storeOnSet)`. */
  predicate StoresOnSet(option: StoreOnSetOption) {
    match option
    case StoreOnSetFlag(enabled) => enabled
    case StoreOnSetAttributes(_) => true
  }

  /** The options a caller passes, each of which may be left out. */
  datatype Options<!V, !S> = Options(
    storeOnSet: Option<StoreOnSetOption>,
    serializer: Option<V -> S>,
    deserializer: Option<S -> V>)

  /** The options once their defaults are filled in. */
  datatype Settings<!V, !S> = Settings(
    storeOnSet: StoreOnSetOption,
    serializer: V -> S,
    deserializer: S -> V)

  /** Default filling for state stored as itself (the only case in which
      the TypeScript type lets the transforms be left out): `storeOnSet`
      defaults to true and both transforms to the identity. */
  function WithDefaults<V(!new)>(options: Options<V, V>): (s: Settings<V, V>)
    ensures s.storeOnSet == (if options.storeOnSet.Some? then options.storeOnSet.value else StoreOnSetFlag(true))
    ensures options.storeOnSet.None? ==> StoresOnSet(s.storeOnSet)
    ensures options.serializer.Some? ==> s.serializer == options.serializer.value
    ensures options.serializer.None? ==> forall v :: s.serializer(v) == v
    ensures options.deserializer.Some? ==> s.deserializer == options.deserializer.value
    ensures options.deserializer.None? ==> forall v :: s.deserializer(v) == v
  {
    Settings(
      if options.storeOnSet.Some? then options.storeOnSet.value else StoreOnSetFlag(true),
      if options.serializer.Some? then options.serializer.value else (v: V) => v,
      if options.deserializer.Some? then options.deserializer.value else (v: V) => v)
  }

  /** The inner `retrieve`: `undefined` stays `undefined`, a stored value
      goes through the deserializer, a parse failure propagates. */
  function Deserialize<V, S>(retrieved: Result<Option<S>>, deserializer: S -> V): (r: Result<Option<V>>)
    ensures r.Err? <==> retrieved.Err?
    ensures r.Err? ==> r.error == retrieved.error
    ensures r == Ok(None) <==> retrieved == Ok(None)
  {
    match retrieved
    case Err(e) => Err(e)
    case Ok(None) => Ok(None)
    case Ok(Some(s)) => Ok(Some(deserializer(s)))
  }

  /** Running the initializer on a retrieved value, unless retrieving threw. */
  function Initialized<V>(stored: Result<Option<V>>, initializer: Option<V> -> V): Result<V> {
    match stored
    case Err(e) => Err(e)
    case Ok(v) => Ok(initializer(v))
  }

  /** The client's initial value: `initializer(undefined)` when a resync
      will be needed, otherwise the initializer run on what `retrieve`
      returns now. */
  function ClientInitialValue<V, S>(p: PageState, key: string, codec: Codec<S>,
                                   deserializer: S -> V, initializer: Option<V> -> V): Result<V> {
    if NeedsSync(p) then Ok(initializer(None))
    else Initialized(Deserialize(RetrieveResult(p, key, codec), deserializer), initializer)
  }

  /** The server's initial value: the initializer run on the server read. */
  function ServerInitialValue<V, S>(p: PageState, key: string, codec: Codec<S>,
                                   deserializer: S -> V, initializer: Option<V> -> V): Result<V> {
    Initialized(Deserialize(ServerRetrieve(p, key, codec), deserializer), initializer)
  }

  /** The value the resync callback sets: the full initializer re-run on
      what the live cookie jar holds for the key. */
  function ResyncedValue<V, S>(cookies: map<string, string>, key: string, codec: Codec<S>,
                              deserializer: S -> V, initializer: Option<V> -> V): (r: Result<V>)
    ensures key !in cookies ==> r == Ok(initializer(None))
    ensures r.Err? ==> key in cookies && codec.decode(cookies[key]).Err?
  {
    Initialized(Deserialize(Parse(codec, Lookup(cookies, key)), deserializer), initializer)
  }

  /** `value ?? initializer(value)`: an explicit retrieve keeps a stored
      value as it is and only falls back to the initializer without one. */
  function RetrievedValue<V>(stored: Option<V>, initializer: Option<V> -> V): V {
    if stored.Some? then stored.value else initializer(None)
  }

  /** The first client render shows what the server rendered: with a
      snapshot holding the key, or with no snapshot at all, the client's
      initial value during hydration equals the server's. */
  lemma FirstClientRenderMatchesServer<V, S>(server: PageState, client: PageState, key: string, codec: Codec<S>,
                                             deserializer: S -> V, initializer: Option<V> -> V)
    requires client.hydrating && client.snapshot == server.snapshot
    requires server.snapshot.None? || key in server.snapshot.value
    ensures ClientInitialValue(client, key, codec, deserializer, initializer)
         == ServerInitialValue(server, key, codec, deserializer, initializer)
  {
    if server.snapshot.Some? {
      ServerAndHydratingClientAgree(server, client, key, codec);
    }
  }

  /** Where the snapshot exists but lacks the key, the two renders part:
      the client starts from `initializer(undefined)` while the server
      render throws, because the server read parses `undefined`. */
  lemma MissingSnapshotKeyFailsServerRender<V, S>(server: PageState, client: PageState, key: string, codec: Codec<S>,
                                                  deserializer: S -> V, initializer: Option<V> -> V)
    requires client.hydrating && client.snapshot == server.snapshot
    requires server.snapshot.Some? && key !in server.snapshot.value
    ensures ClientInitialValue(client, key, codec, deserializer, initializer) == Ok(initializer(None))
    ensures ServerInitialValue(server, key, codec, deserializer, initializer).Err?
  {
  }

  /** A resync leaves the component where a mount after hydration would
      have started it: the initializer run on the live cookie. */
  lemma ResyncMatchesMountAfterHydration<V, S>(p: PageState, key: string, codec: Codec<S>,
                                               deserializer: S -> V, initializer: Option<V> -> V)
    ensures ResyncedValue(p.cookies, key, codec, deserializer, initializer)
         == ClientInitialValue(p.(hydrating := false), key, codec, deserializer, initializer)
  {
  }

  /** After hydration, a value persisted by `setValue` (with store on set)
      or by `store` is what the next explicit retrieve brings back, given
      that deserializing its serialized form and decoding its encoded
      form both give back what went in. */
  lemma PersistThenRetrieveRoundTrips<V, S>(p: PageState, key: string, codec: Codec<S>, settings: Settings<V, S>, v: V)
    requires !p.hydrating
    requires RoundTrips(codec, settings.serializer(v))
    requires settings.deserializer(settings.serializer(v)) == v
    ensures Deserialize(RetrieveResult(Apply(p, codec, StoreCall(key, settings.serializer(v))), key, codec),
                        settings.deserializer) == Ok(Some(v))
  {
    StoreThenRetrieveAfterHydration(p, codec, key, settings.serializer(v));
  }

  /** The client-side state of one mounted component: its accessor, the
      resync trigger's own accessor (both obtained at the first render),
      the caller's initializer and settings, the state cell `value`, and
      `isSyncing` as the latest render returned it. */
  class ClientCookieState<V, S> {
    const cookie: ClientCookie<S>
    const sync: SyncWithCookie<S>
    const initializer: Option<V> -> V
    const settings: Settings<V, S>
    var isSyncing: bool
    var value: V

    /** Both accessors serve the same key on the same page and were
        obtained in the same render; once the effects have run, the page
        is no longer hydrating. */
    ghost predicate Valid()
      reads sync`effectRan, cookie.page`hydrating
    {
      && sync.cookie.page == cookie.page
      && sync.cookie.key == cookie.key
      && sync.cookie.codec == cookie.codec
      && sync.cookie.needsSync == cookie.needsSync
      && (sync.effectRan ==> !cookie.page.hydrating)
    }

    constructor (cookie: ClientCookie<S>, sync: SyncWithCookie<S>, initializer: Option<V> -> V,
                 settings: Settings<V, S>, initialValue: V)
      requires sync.cookie.page == cookie.page && sync.cookie.key == cookie.key
      requires sync.cookie.codec == cookie.codec && sync.cookie.needsSync == cookie.needsSync
      requires !sync.effectRan
      ensures Valid()
      ensures this.cookie == cookie && this.sync == sync && this.initializer == initializer
      ensures this.settings == settings && value == initialValue
      ensures isSyncing == cookie.needsSync
    {
      this.cookie := cookie;
      this.sync := sync;
      this.initializer := initializer;
      this.settings := settings;
      this.isSyncing := cookie.needsSync;
      this.value := initialValue;
    }

    /** A later render of the mounted component: the state cell keeps its
        value, and `isSyncing` is `needsSync` as that render computes it,
        so every render after the first commit reports `false`. */
    method Render()
      requires Valid()
      modifies this`isSyncing
      ensures Valid()
      ensures isSyncing == NeedsSync(cookie.page.State())
      ensures sync.effectRan ==> !isSyncing
    {
      isSyncing := cookie.page.snapshot.None? && cookie.page.hydrating;
    }

    /** `setValue` (`decoratedSetValue`): the updater gives the new value;
        with store-on-set enabled its serialized form is stored once, and
        with it disabled the cookie jar is untouched. */
    method SetValue(updater: Updater<V>)
      requires Valid()
      modifies this`value, cookie.page`cookies
      ensures Valid()
      ensures value == UpdatedValueFromUpdater(old(value), updater)
      ensures cookie.page.State()
           == if StoresOnSet(settings.storeOnSet)
              then Apply(old(cookie.page.State()), cookie.codec, StoreCall(cookie.key, settings.serializer(value)))
              else old(cookie.page.State())
    {
      var updatedValue := UpdatedValueFromUpdater(value, updater);
      if StoresOnSet(settings.storeOnSet) {
        cookie.Store(settings.serializer(updatedValue));
      }
      value := updatedValue;
    }

    /** `retrieve` (`boundRetrieve`): a stored value is taken as it is,
        without the initializer; without one the value becomes
        `initializer(undefined)`; a parse failure leaves it unchanged. */
    method Retrieve() returns (outcome: Outcome)
      requires Valid()
      modifies this`value, cookie.page`warnings
      ensures Valid()
      ensures cookie.page.State() == Apply(old(cookie.page.State()), cookie.codec, RetrieveCall(cookie.key))
      ensures match Deserialize(RetrieveResult(old(cookie.page.State()), cookie.key, cookie.codec), settings.deserializer)
              case Err(e) => outcome == Fail(e) && value == old(value)
              case Ok(stored) => outcome == Pass && value == RetrievedValue(stored, initializer)
    {
      var serialized := cookie.Retrieve();
      match Deserialize(serialized, settings.deserializer)
      case Err(e) =>
        outcome := Fail(e);
      case Ok(stored) =>
        value := RetrievedValue(stored, initializer);
        outcome := Pass;
    }

    /** `store` (`boundStore`): stores the serialized current value. */
    method Store()
      requires Valid()
      modifies cookie.page`cookies
      ensures Valid()
      ensures cookie.page.State()
           == Apply(old(cookie.page.State()), cookie.codec, StoreCall(cookie.key, settings.serializer(value)))
    {
      cookie.Store(settings.serializer(value));
    }

    /** `clear` (`boundClear`): removes the cookie and resets the value to
        `initializer(undefined)`. */
    method Clear()
      requires Valid()
      modifies this`value, cookie.page`cookies
      ensures Valid()
      ensures cookie.page.State() == Apply(old(cookie.page.State()), cookie.codec, ClearCall(cookie.key))
      ensures value == initializer(None)
    {
      cookie.Clear();
      value := initializer(None);
    }

    /** The first commit: the accessor's flag-lowering effect, then the
        resync trigger's. When `needsSync` held at the first render, the
        callback re-runs the full initializer on a fresh read, which sees
        the live cookie jar; it ignores the value the trigger passes it.
        Nothing logs a warning, and later commits do nothing. */
    method CommitEffects() returns (outcome: Outcome)
      requires Valid()
      modifies cookie.page`hydrating, cookie.page`warnings, sync`effectRan, this`value
      ensures Valid()
      ensures sync.effectRan && !cookie.page.hydrating
      ensures cookie.page.cookies == old(cookie.page.cookies)
      ensures cookie.page.warnings == old(cookie.page.warnings)
      ensures old(sync.effectRan) ==> outcome == Pass && value == old(value) && unchanged(cookie.page)
      ensures !old(sync.effectRan) && !cookie.needsSync ==> outcome == Pass && value == old(value)
      ensures !old(sync.effectRan) && cookie.needsSync ==>
                match ResyncedValue(old(cookie.page.cookies), cookie.key, cookie.codec, settings.deserializer, initializer)
                case Err(e) => outcome == Fail(e) && value == old(value)
                case Ok(v) => outcome == Pass && value == v
    {
      if sync.effectRan {
        return Pass;
      }
      cookie.LayoutEffect();
      var synced := sync.CommitEffects();
      outcome := Pass;
      match synced
      case None =>
      case Some(Err(e)) =>
        outcome := Fail(e);
      case Some(Ok(_)) =>
        var serialized := cookie.Retrieve();
        match Deserialize(serialized, settings.deserializer)
        case Err(e) =>
          outcome := Fail(e);
        case Ok(stored) =>
          value := initializer(stored);
    }
  }

  /** `useClientSideCookieState(key, initializer, options)` at mount: the
      accessor, the initial value (reading the key only when no resync
      is due, so the mount never warns), then the resync trigger. A parse
      failure in the initial read throws out of the render. */
  method UseClientSideCookieState<V, S>(page: Page, key: string, codec: Codec<S>,
                                        initializer: Option<V> -> V, settings: Settings<V, S>)
    returns (r: Result<ClientCookieState<V, S>>)
    modifies page`warnings
    ensures page.State() == old(page.State())
    ensures r.Ok? <==> ClientInitialValue(old(page.State()), key, codec, settings.deserializer, initializer).Ok?
    ensures r.Err? ==> r.error == ClientInitialValue(old(page.State()), key, codec, settings.deserializer, initializer).error
    ensures r.Ok? ==>
              && fresh(r.value) && fresh(r.value.cookie) && fresh(r.value.sync) && fresh(r.value.sync.cookie)
              && r.value.Valid() && !r.value.sync.effectRan
              && r.value.cookie.page == page && r.value.cookie.key == key && r.value.cookie.codec == codec
              && r.value.initializer == initializer && r.value.settings == settings
              && r.value.isSyncing == NeedsSync(old(page.State()))
              && r.value.cookie.needsSync == NeedsSync(old(page.State()))
              && r.value.value == ClientInitialValue(old(page.State()), key, codec, settings.deserializer, initializer).value
  {
    var cookie := new ClientCookie(page, key, codec);
    var stored: Result<Option<V>> := Ok(None);
    if !cookie.needsSync {
      var serialized := cookie.Retrieve();
      stored := Deserialize(serialized, settings.deserializer);
    }
    match stored
    case Err(e) =>
      r := Err(e);
    case Ok(s) =>
      var sync := new SyncWithCookie(page, key, codec);
      var state := new ClientCookieState(cookie, sync, initializer, settings, initializer(s));
      r := Ok(state);
  }

  /** The hydration path the hook exists for: mounted while a resync is
      due (no snapshot, page hydrating), the component starts from
      `initializer(undefined)`, and its first commit leaves it at the
      initializer run on the live cookie, with the flag down and no
      warning logged. */
  method MountThenFirstCommit<V, S>(page: Page, key: string, codec: Codec<S>,
                                    initializer: Option<V> -> V, settings: Settings<V, S>)
    returns (first: V, settled: Result<V>)
    requires NeedsSync(page.State())
    modifies page`warnings, page`hydrating
    ensures first == initializer(None)
    ensures settled == ResyncedValue(old(page.cookies), key, codec, settings.deserializer, initializer)
    ensures page.State() == old(page.State()).(hydrating := false)
  {
    var mounted := UseClientSideCookieState(page, key, codec, initializer, settings);
    var state := mounted.value;
    first := state.value;
    var outcome := state.CommitEffects();
    match outcome
    case Fail(e) =>
      settled := Err(e);
    case Pass =>
      settled := Ok(state.value);
  }

  /** The server-side state of one render. It reads the request's context
      (the snapshot and the flag as the provider gives them) and never
      writes a cookie; of the options only the deserializer is used. */
  class ServerCookieState<V, S> {
    const context: PageState
    const key: string
    const codec: Codec<S>
    const initializer: Option<V> -> V
    const deserializer: S -> V
    const isSyncing: bool
    var value: V

    constructor (context: PageState, key: string, codec: Codec<S>, initializer: Option<V> -> V,
                 deserializer: S -> V, initialValue: V)
      ensures this.context == context && this.key == key && this.codec == codec
      ensures this.initializer == initializer && this.deserializer == deserializer
      ensures isSyncing == NeedsSync(context) && value == initialValue
    {
      this.context := context;
      this.key := key;
      this.codec := codec;
      this.initializer := initializer;
      this.deserializer := deserializer;
      this.isSyncing := NeedsSync(context);
      this.value := initialValue;
    }

    /** `setValue` is the plain state setter: it applies the updater and
        never persists. */
    method SetValue(updater: Updater<V>)
      modifies this`value
      ensures value == UpdatedValueFromUpdater(old(value), updater)
    {
      value := UpdatedValueFromUpdater(value, updater);
    }

    /** `retrieve` (`boundRetrieve`): re-derives the value from the
        snapshot, with the same fallback as on the client. */
    method Retrieve() returns (outcome: Outcome)
      modifies this`value
      ensures match Deserialize(ServerRetrieve(context, key, codec), deserializer)
              case Err(e) => outcome == Fail(e) && value == old(value)
              case Ok(stored) => outcome == Pass && value == RetrievedValue(stored, initializer)
    {
      match Deserialize(ServerRetrieve(context, key, codec), deserializer)
      case Err(e) =>
        outcome := Fail(e);
      case Ok(stored) =>
        value := RetrievedValue(stored, initializer);
        outcome := Pass;
    }

    /** `store` is a no-op. */
    method Store()
      ensures value == old(value)
    {
    }

    /** `clear` only resets the value to `initializer(undefined)`. */
    method Clear()
      modifies this`value
      ensures value == initializer(None)
    {
      value := initializer(None);
    }
  }

  /** `useServerSideCookieState(key, initializer, options)`: the initial
      value is the initializer run on the server read, with no special
      case for `needsSync`; a parse failure throws out of the render. */
  method UseServerSideCookieState<V, S>(context: PageState, key: string, codec: Codec<S>,
                                        initializer: Option<V> -> V, settings: Settings<V, S>)
    returns (r: Result<ServerCookieState<V, S>>)
    ensures r.Ok? <==> ServerInitialValue(context, key, codec, settings.deserializer, initializer).Ok?
    ensures r.Err? ==> r.error == ServerInitialValue(context, key, codec, settings.deserializer, initializer).error
    ensures r.Ok? ==>
              && fresh(r.value)
              && r.value.context == context && r.value.key == key && r.value.codec == codec
              && r.value.initializer == initializer && r.value.deserializer == settings.deserializer
              && r.value.isSyncing == NeedsSync(context)
              && r.value.value == ServerInitialValue(context, key, codec, settings.deserializer, initializer).value
  {
    match Deserialize(ServerRetrieve(context, key, codec), settings.deserializer)
    case Err(e) =>
      r := Err(e);
    case Ok(stored) =>
      var state := new ServerCookieState(context, key, codec, initializer, settings.deserializer, initializer(stored));
      r := Ok(state);
  }
}
