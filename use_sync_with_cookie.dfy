/** The resync trigger (src/hooks/useSyncWithCookie.ts): a one-shot effect
    that, when the render found `needsSync`, reads the key again after the
    first commit and hands the result to the caller's callback. */
module UseSyncWithCookie {
  import opened Values
  import opened UseCookie

  /** One mount of `useSyncWithCookie(key, sync)`. The callback itself
      belongs to the caller: `CommitEffects` returns what it is invoked
      with, or `None` when it is not invoked. `effectRan` records that the
      effects, registered with an empty dependency list, have had their one
      run for this mount. */
  class SyncWithCookie<T> {
    const cookie: ClientCookie<T>
    var effectRan: bool

    /** The render: the hook obtains its own accessor for the key, which
        reads `needsSync` now. */
    constructor (page: Page, key: string, codec: Codec<T>)
      ensures fresh(cookie)
      ensures cookie.page == page && cookie.key == key && cookie.codec == codec
      ensures cookie.needsSync == (page.snapshot.None? && page.hydrating)
      ensures !effectRan
    {
      cookie := new ClientCookie(page, key, codec);
      effectRan := false;
    }

    /** The commit: the accessor's flag-lowering effect, registered
        first, then the sync effect, which reads the key again only when
        `needsSync` held at render time. By then the flag is down, so the
        read sees the live cookie jar and logs no warning. Later commits
        run neither. */
    method CommitEffects() returns (synced: Option<Result<Option<T>>>)
      modifies this`effectRan, cookie.page`hydrating, cookie.page`warnings
      ensures effectRan
      ensures old(effectRan) ==> synced == None && unchanged(cookie.page)
      ensures !old(effectRan) ==> !cookie.page.hydrating
      ensures cookie.page.cookies == old(cookie.page.cookies)
      ensures cookie.page.warnings == old(cookie.page.warnings)
      ensures !old(effectRan) ==>
                synced == if cookie.needsSync
                          then Some(Parse(cookie.codec, Lookup(old(cookie.page.cookies), cookie.key)))
                          else None
    {
      if effectRan {
        return None;
      }
      cookie.LayoutEffect();
      effectRan := true;
      if cookie.needsSync {
        var latest := cookie.Retrieve();
        synced := Some(latest);
      } else {
        synced := None;
      }
    }
  }
}
