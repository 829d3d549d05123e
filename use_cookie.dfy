/** The cookie accessor (src/hooks/useCookie.ts): the environment-dispatching
    core that decides, for one cookie key, whether a read sees the server
    snapshot or the live client cookie jar.

    Everything one page instance shares is gathered in `Page`: the immutable
    server snapshot (`cookiesInServer`), the shared hydration flag
    (`isHydratingRef.current`), the browser cookie jar that js-cookie reads
    and writes, and the number of warnings the logger has received.
    `PageState` is the same four things as a value; every method of the
    client accessor is specified by `Apply` on that value, so the lemmas of
    module HydrationTraces about sequences of calls speak about the methods. */
module UseCookie {
  import opened Values

  /** The state one page instance shares between all its accessors. */
  datatype PageState = PageState(
    snapshot: Option<map<string, string>>,  // `null` when no cookies reached the server render
    hydrating: bool,                         // isHydratingRef.current
    cookies: map<string, string>,            // the live client cookie jar
    warnings: nat)                           // calls to logger.warn so far

  /** `noCookiesInServer && isHydratingRef.current`: the accessor's
      `needsSync` when read at render time, and the warning condition when
      read inside `retrieve`. */
  predicate NeedsSync(p: PageState) {
    p.snapshot.None? && p.hydrating
  }

  /** `cookiesInServer?.[key]`. */
  function ServerEntry(snapshot: Option<map<string, string>>, key: string): Option<string> {
    match snapshot
    case None => None
    case Some(m) => Lookup(m, key)
  }

  /** The serialized text a client `retrieve` reads: the server snapshot
      while hydrating, the live cookie jar afterwards. */
  function SelectedEntry(p: PageState, key: string): Option<string> {
    if p.hydrating then ServerEntry(p.snapshot, key) else Lookup(p.cookies, key)
  }

  /** `undefined` stays `undefined` without decoding; text is decoded,
      and a decode failure propagates. */
  function Parse<T>(codec: Codec<T>, entry: Option<string>): Result<Option<T>> {
    match entry
    case None => Ok(None)
    case Some(text) =>
      match codec.decode(text)
      case Ok(v) => Ok(Some(v))
      case Err(e) => Err(e)
  }

  /** What a client `retrieve` returns in state `p`. */
  function RetrieveResult<T>(p: PageState, key: string, codec: Codec<T>): Result<Option<T>> {
    Parse(codec, SelectedEntry(p, key))
  }

  /** The calls a client accessor accepts, including the post-commit
      effect it registers. */
  datatype Call<T> =
    | RetrieveCall(key: string)
    | StoreCall(key: string, data: T)
    | ClearCall(key: string)
    | LayoutEffectCall

  /** The page state after one call on a client accessor. No call changes
      the snapshot, raises the flag or takes back a warning; only the
      effect lowers the flag, and only reads warn. */
  function Apply<T>(p: PageState, codec: Codec<T>, call: Call<T>): (r: PageState)
    ensures r.snapshot == p.snapshot
    ensures r.hydrating <==> p.hydrating && !call.LayoutEffectCall?
    ensures r.warnings >= p.warnings
    ensures !call.RetrieveCall? ==> r.warnings == p.warnings
    ensures call.RetrieveCall? || call.LayoutEffectCall? ==> r.cookies == p.cookies
  {
    match call
    case RetrieveCall(_) => p.(warnings := if NeedsSync(p) then p.warnings + 1 else p.warnings)
    case StoreCall(key, data) => p.(cookies := p.cookies[key := codec.encode(data)])
    case ClearCall(key) => p.(cookies := p.cookies - {key})
    case LayoutEffectCall => p.(hydrating := false)
  }

  /** While hydrating, the result of a client read depends only on the
      server snapshot: two states that differ in their cookie jars (and
      warning counts) read the same. */
  lemma HydratingReadIgnoresClientJar<T>(p: PageState, q: PageState, key: string, codec: Codec<T>)
    requires p.hydrating && q.hydrating && p.snapshot == q.snapshot
    ensures RetrieveResult(p, key, codec) == RetrieveResult(q, key, codec)
               == Parse(codec, ServerEntry(p.snapshot, key))
  {
  }

  /** After hydration, the result of a client read depends only on the
      live cookie jar and ignores the snapshot. */
  lemma SettledReadIgnoresSnapshot<T>(p: PageState, q: PageState, key: string, codec: Codec<T>)
    requires !p.hydrating && !q.hydrating && p.cookies == q.cookies
    ensures RetrieveResult(p, key, codec) == RetrieveResult(q, key, codec)
               == Parse(codec, Lookup(p.cookies, key))
  {
  }

  /** A read returns `undefined` exactly when the source it selects has no
      entry: a null snapshot or a missing key while hydrating, a missing
      cookie afterwards; an entry is always decoded. */
  lemma UndefinedExactlyWhenNoEntry<T>(p: PageState, key: string, codec: Codec<T>)
    ensures RetrieveResult(p, key, codec) == Ok(None) <==> SelectedEntry(p, key).None?
    ensures p.hydrating && p.snapshot.None? ==> RetrieveResult(p, key, codec) == Ok(None)
    ensures SelectedEntry(p, key).Some? ==>
              RetrieveResult(p, key, codec).Ok? == codec.decode(SelectedEntry(p, key).value).Ok?
  {
  }

  /** One read warns once when it happens during hydration without a
      snapshot, and otherwise not at all; it changes nothing else. */
  lemma RetrieveWarnsOnlyWithoutSnapshotWhileHydrating<T>(p: PageState, key: string, codec: Codec<T>)
    ensures Apply(p, codec, RetrieveCall(key)).warnings
              == p.warnings + (if p.snapshot.None? && p.hydrating then 1 else 0)
    ensures Apply(p, codec, RetrieveCall(key)).(warnings := p.warnings) == p
  {
  }

  /** A store writes the encoded value under its key and nothing else; a
      clear removes its key and nothing else; neither touches the snapshot,
      the flag or the warnings. */
  lemma WritesTouchOnlyTheirKey<T>(p: PageState, codec: Codec<T>, key: string, data: T, other: string)
    requires other != key
    ensures Lookup(Apply(p, codec, StoreCall(key, data)).cookies, key) == Some(codec.encode(data))
    ensures Lookup(Apply(p, codec, ClearCall(key)).cookies, key) == None
    ensures Lookup(Apply(p, codec, StoreCall(key, data)).cookies, other) == Lookup(p.cookies, other)
    ensures Lookup(Apply(p, codec, ClearCall(key)).cookies, other) == Lookup(p.cookies, other)
    ensures Apply(p, codec, StoreCall(key, data)).(cookies := p.cookies) == p
    ensures Apply(p, codec, ClearCall(key)).(cookies := p.cookies) == p
  {
  }

  /** Round trip: after hydration, storing a value and then reading its
      key gives the value back, given the codec's own round trip. */
  lemma StoreThenRetrieveAfterHydration<T>(p: PageState, codec: Codec<T>, key: string, v: T)
    requires !p.hydrating
    requires RoundTrips(codec, v)
    ensures RetrieveResult(Apply(p, codec, StoreCall(key, v)), key, codec) == Ok(Some(v))
  {
  }

  /** The shared page: what the provider hands to every accessor of one
      page instance, plus the browser cookie jar and the logger. */
  class Page {
    const snapshot: Option<map<string, string>>
    var hydrating: bool
    var cookies: map<string, string>
    var warnings: nat

    function State(): PageState
      reads this
    {
      PageState(snapshot, hydrating, cookies, warnings)
    }

    constructor (snapshot: Option<map<string, string>>, hydrating: bool, cookies: map<string, string>)
      ensures State() == PageState(snapshot, hydrating, cookies, 0)
    {
      this.snapshot := snapshot;
      this.hydrating := hydrating;
      this.cookies := cookies;
      this.warnings := 0;
    }
  }

  /** What `useClientSideCookie(key)` returns at one render: `needsSync`
      is read once, when the accessor is obtained; `retrieve`, `store` and
      `clear` act on the shared page whenever they are called. */
  class ClientCookie<T> {
    const page: Page
    const key: string
    const codec: Codec<T>
    const needsSync: bool

    /** Obtaining the accessor during a render. */
    constructor (page: Page, key: string, codec: Codec<T>)
      ensures this.page == page && this.key == key && this.codec == codec
      ensures needsSync == (page.snapshot.None? && page.hydrating)
    {
      this.page := page;
      this.key := key;
      this.codec := codec;
      this.needsSync := page.snapshot.None? && page.hydrating;
    }

    /** The effect the accessor registers with an empty dependency list:
        after the first commit it lowers the shared flag. */
    method LayoutEffect()
      modifies page`hydrating
      ensures page.State() == Apply(old(page.State()), codec, LayoutEffectCall)
      ensures !page.hydrating
    {
      page.hydrating := false;
    }

    /** `retrieve`: warns when there is no snapshot during hydration, then
        reads the snapshot while hydrating and the live jar afterwards. */
    method Retrieve() returns (r: Result<Option<T>>)
      modifies page`warnings
      ensures page.State() == Apply(old(page.State()), codec, RetrieveCall(key))
      ensures r == RetrieveResult(old(page.State()), key, codec)
    {
      var needsSyncAfterHydration := page.snapshot.None? && page.hydrating;
      if needsSyncAfterHydration {
        page.warnings := page.warnings + 1;
      }
      var serializedData := if page.hydrating then ServerEntry(page.snapshot, key) else Lookup(page.cookies, key);
      r := Parse(codec, serializedData);
    }

    /** `store`: writes the encoded value under the key in the live jar. */
    method Store(data: T)
      modifies page`cookies
      ensures page.State() == Apply(old(page.State()), codec, StoreCall(key, data))
    {
      page.cookies := page.cookies[key := codec.encode(data)];
    }

    /** `clear`: removes the key from the live jar. */
    method Clear()
      modifies page`cookies
      ensures page.State() == Apply(old(page.State()), codec, ClearCall(key))
    {
      page.cookies := page.cookies - {key};
    }
  }

  /** Server `retrieve`: `undefined` without a snapshot, otherwise
      JSON.parse of the snapshot entry. The code has no guard for a key the
      snapshot lacks: JSON.parse(undefined) parses the text "undefined",
      which is not JSON, and throws. */
  function ServerRetrieve<T>(p: PageState, key: string, codec: Codec<T>): (r: Result<Option<T>>)
    ensures r == Ok(None) <==> p.snapshot.None?
    ensures r.Ok? && r.value.Some? ==>
              p.snapshot.Some? && key in p.snapshot.value && codec.decode(p.snapshot.value[key]) == Ok(r.value.value)
  {
    match p.snapshot
    case None => Ok(None)
    case Some(m) =>
      if key in m then
        match codec.decode(m[key])
        case Ok(v) => Ok(Some(v))
        case Err(e) => Err(e)
      else Err(SyntaxError("undefined"))
  }

  /** Server `store` and `clear` are no-ops: the page comes back as it was. */
  function ServerApply<T>(p: PageState, call: Call<T>): PageState {
    p
  }

  /** The server accessor reads only the snapshot: it ignores the flag and
      the cookie jar, yields `undefined` without a snapshot, decodes an
      entry that is there and throws on a key the snapshot lacks. */
  lemma ServerRetrieveReadsSnapshotOnly<T>(p: PageState, q: PageState, key: string, codec: Codec<T>)
    requires p.snapshot == q.snapshot
    ensures ServerRetrieve(p, key, codec) == ServerRetrieve(q, key, codec)
    ensures p.snapshot.None? ==> ServerRetrieve(p, key, codec) == Ok(None)
    ensures p.snapshot.Some? && key in p.snapshot.value ==>
              ServerRetrieve(p, key, codec) == Parse(codec, Some(p.snapshot.value[key]))
    ensures p.snapshot.Some? && key !in p.snapshot.value ==> ServerRetrieve(p, key, codec).Err?
  {
  }

  /** Where the snapshot has an entry for the key (or there is no
      snapshot), the server read and a client read during hydration
      agree: the server truth the markup was rendered from is what the
      client's first render sees. */
  lemma ServerAndHydratingClientAgree<T>(server: PageState, client: PageState, key: string, codec: Codec<T>)
    requires client.hydrating && client.snapshot == server.snapshot
    requires server.snapshot.None? || key in server.snapshot.value
    ensures ServerRetrieve(server, key, codec) == RetrieveResult(client, key, codec)
  {
  }
}
