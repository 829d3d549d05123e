/** Sequences of accessor calls on one page instance. Each client accessor
    method is specified by `UseCookie.Apply`, so `Run` is what any
    interleaving of `retrieve`, `store`, `clear` and the post-commit effect,
    on any keys and through any number of accessors sharing the page, does
    to the page and returns to the callers. The lemmas here are the
    hydration-consistency rules stated over whole sequences. */
module HydrationTraces {
  import opened Values
  import opened UseCookie

  /** One value returned by a `retrieve` call, with the key it was for. */
  datatype Observation<T> = Observation(key: string, result: Result<Option<T>>)

  /** The page after `calls`, and what the reads among them returned, in order. */
  function Run<T>(p: PageState, codec: Codec<T>, calls: seq<Call<T>>): (PageState, seq<Observation<T>>)
    decreases |calls|
  {
    if calls == [] then (p, [])
    else
      var read := if calls[0].RetrieveCall? then [Observation(calls[0].key, RetrieveResult(p, calls[0].key, codec))] else [];
      var rest := Run(Apply(p, codec, calls[0]), codec, calls[1..]);
      (rest.0, read + rest.1)
  }

  /** No call in `calls` is the post-commit effect. */
  predicate NoCommit<T>(calls: seq<Call<T>>) {
    forall i :: 0 <= i < |calls| ==> !calls[i].LayoutEffectCall?
  }

  /** `call` writes or removes `key` in the cookie jar. */
  predicate Writes<T>(call: Call<T>, key: string) {
    (call.StoreCall? || call.ClearCall?) && call.key == key
  }

  /** Running two sequences one after the other is running their concatenation. */
  lemma {:induction false} RunAppend<T>(p: PageState, codec: Codec<T>, a: seq<Call<T>>, b: seq<Call<T>>)
    ensures Run(p, codec, a + b).0 == Run(Run(p, codec, a).0, codec, b).0
    ensures Run(p, codec, a + b).1 == Run(p, codec, a).1 + Run(Run(p, codec, a).0, codec, b).1
    decreases |a|
  {
    if a != [] {
      assert (a + b)[0] == a[0];
      assert (a + b)[1..] == a[1..] + b;
      var q := Apply(p, codec, a[0]);
      RunAppend(q, codec, a[1..], b);
      var read := if a[0].RetrieveCall? then [Observation(a[0].key, RetrieveResult(p, a[0].key, codec))] else [];
      assert Run(p, codec, a).1 == read + Run(q, codec, a[1..]).1;
      assert Run(p, codec, a + b).1 == read + Run(q, codec, a[1..] + b).1;
    } else {
      assert a + b == b;
    }
  }

  /** The snapshot never changes, and the flag is still up after a
      sequence exactly when it was up before and the sequence holds no
      post-commit effect: the flag only ever goes from true to false, and
      only in that effect. */
  lemma {:induction false} FlagOnlyFallsInLayoutEffect<T>(p: PageState, codec: Codec<T>, calls: seq<Call<T>>)
    ensures Run(p, codec, calls).0.snapshot == p.snapshot
    ensures Run(p, codec, calls).0.hydrating <==> p.hydrating && NoCommit(calls)
    decreases |calls|
  {
    if calls != [] {
      FlagOnlyFallsInLayoutEffect(Apply(p, codec, calls[0]), codec, calls[1..]);
      assert NoCommit(calls) <==> !calls[0].LayoutEffectCall? && NoCommit(calls[1..]) by {
        if !calls[0].LayoutEffectCall? && NoCommit(calls[1..]) {
          forall i | 0 <= i < |calls| ensures !calls[i].LayoutEffectCall? {
            if i > 0 { assert calls[i] == calls[1..][i - 1]; }
          }
        }
      }
    }
  }

  /** Mismatch safety: while the page is hydrating, every read returns the
      decoded snapshot entry for its key, whatever stores and clears are
      made to the live jar in between. */
  lemma {:induction false} HydrationReadsOnlySnapshot<T>(p: PageState, codec: Codec<T>, calls: seq<Call<T>>)
    requires p.hydrating && NoCommit(calls)
    ensures forall o :: o in Run(p, codec, calls).1 ==> o.result == Parse(codec, ServerEntry(p.snapshot, o.key))
    decreases |calls|
  {
    if calls != [] {
      var q := Apply(p, codec, calls[0]);
      assert NoCommit(calls[1..]) by {
        forall i | 0 <= i < |calls[1..]| ensures !calls[1..][i].LayoutEffectCall? {
          assert calls[1..][i] == calls[i + 1];
        }
      }
      HydrationReadsOnlySnapshot(q, codec, calls[1..]);
    }
  }

  /** Warnings: a page with a snapshot, or one that is no longer
      hydrating, never warns; a hydrating page without a snapshot warns
      once for every read until the effect runs (no deduplication). */
  lemma {:induction false} WarningsCountUnsafeReads<T>(p: PageState, codec: Codec<T>, calls: seq<Call<T>>)
    ensures p.snapshot.Some? || !p.hydrating ==> Run(p, codec, calls).0.warnings == p.warnings
    ensures p.snapshot.None? && p.hydrating && NoCommit(calls) ==>
              Run(p, codec, calls).0.warnings == p.warnings + |Run(p, codec, calls).1|
    decreases |calls|
  {
    if calls != [] {
      var q := Apply(p, codec, calls[0]);
      assert NoCommit(calls) ==> NoCommit(calls[1..]) by {
        if NoCommit(calls) {
          forall i | 0 <= i < |calls[1..]| ensures !calls[1..][i].LayoutEffectCall? {
            assert calls[1..][i] == calls[i + 1];
          }
        }
      }
      WarningsCountUnsafeReads(q, codec, calls[1..]);
    }
  }

  /** Calls that do not write a key leave its cookie as it was. */
  lemma {:induction false} OtherCallsKeepCookie<T>(p: PageState, codec: Codec<T>, calls: seq<Call<T>>, key: string)
    requires forall i :: 0 <= i < |calls| ==> !Writes(calls[i], key)
    ensures Lookup(Run(p, codec, calls).0.cookies, key) == Lookup(p.cookies, key)
    decreases |calls|
  {
    if calls != [] {
      var q := Apply(p, codec, calls[0]);
      assert Lookup(q.cookies, key) == Lookup(p.cookies, key);
      assert forall i :: 0 <= i < |calls[1..]| ==> !Writes(calls[1..][i], key) by {
        forall i | 0 <= i < |calls[1..]| ensures !Writes(calls[1..][i], key) {
          assert calls[1..][i] == calls[i + 1];
        }
      }
      OtherCallsKeepCookie(q, codec, calls[1..], key);
    }
  }

  /** Round trip after hydration, across interleaved calls: a value stored
      under a key is what a later read of that key returns, as long as no
      call in between writes that key. */
  lemma StoreThenRetrieveRoundTrips<T>(p: PageState, codec: Codec<T>, key: string, v: T, calls: seq<Call<T>>)
    requires !p.hydrating
    requires RoundTrips(codec, v)
    requires forall i :: 0 <= i < |calls| ==> !Writes(calls[i], key)
    ensures var seen := Run(p, codec, [StoreCall(key, v)] + calls + [RetrieveCall(key)]).1;
            |seen| > 0 && seen[|seen| - 1] == Observation(key, Ok(Some(v)))
  {
    var stored := Apply(p, codec, StoreCall(key, v));
    assert Run(p, codec, [StoreCall(key, v)]) == (stored, []) by {
      assert Run(stored, codec, []) == (stored, []);
    }
    RunAppend(p, codec, [StoreCall(key, v)], calls);
    var mid := Run(stored, codec, calls).0;
    OtherCallsKeepCookie(stored, codec, calls, key);
    FlagOnlyFallsInLayoutEffect(stored, codec, calls);
    RunAppend(p, codec, [StoreCall(key, v)] + calls, [RetrieveCall(key)]);
    assert Run(mid, codec, [RetrieveCall(key)]).1 == [Observation(key, RetrieveResult(mid, key, codec))] by {
      var last: seq<Call<T>> := [RetrieveCall(key)];
      assert last[1..] == [];
    }
  }

  /** One step of `Run`: the first call, then the rest from the state it leaves. */
  lemma {:induction false} RunCons<T>(p: PageState, codec: Codec<T>, call: Call<T>, rest: seq<Call<T>>)
    ensures Run(p, codec, [call] + rest).0 == Run(Apply(p, codec, call), codec, rest).0
    ensures !call.RetrieveCall? ==> Run(p, codec, [call] + rest).1 == Run(Apply(p, codec, call), codec, rest).1
  {
    var calls := [call] + rest;
    assert calls[0] == call && calls[1..] == rest;
    if !call.RetrieveCall? {
      assert [] + Run(Apply(p, codec, call), codec, rest).1 == Run(Apply(p, codec, call), codec, rest).1;
    }
  }

  /** Lowering the flag twice is lowering it once: the effect is
      idempotent, whatever calls follow. */
  lemma {:induction false} LayoutEffectIdempotent<T>(p: PageState, codec: Codec<T>, calls: seq<Call<T>>)
    ensures Run(p, codec, [LayoutEffectCall, LayoutEffectCall] + calls) == Run(p, codec, [LayoutEffectCall] + calls)
  {
    var lowered := Apply(p, codec, LayoutEffectCall);
    var once: seq<Call<T>> := [LayoutEffectCall] + calls;
    assert [LayoutEffectCall, LayoutEffectCall] + calls == [LayoutEffectCall] + once;
    assert Apply(lowered, codec, LayoutEffectCall) == lowered;
    RunCons(p, codec, LayoutEffectCall, once);
    RunCons(lowered, codec, LayoutEffectCall, calls);
    RunCons(p, codec, LayoutEffectCall, calls);
  }

  /** The same sequence of calls made on the server accessor: store and
      clear change nothing, and there is no post-commit effect. */
  function RunServer<T>(p: PageState, codec: Codec<T>, calls: seq<Call<T>>): (PageState, seq<Observation<T>>)
    decreases |calls|
  {
    if calls == [] then (p, [])
    else
      var read := if calls[0].RetrieveCall? then [Observation(calls[0].key, ServerRetrieve(p, calls[0].key, codec))] else [];
      var rest := RunServer(ServerApply(p, calls[0]), codec, calls[1..]);
      (rest.0, read + rest.1)
  }

  /** Server store and clear are no-ops: after any sequence of server
      calls the page is unchanged, and every server read returns what a
      read on the untouched page returns. */
  lemma {:induction false} ServerCallsChangeNothing<T>(p: PageState, codec: Codec<T>, calls: seq<Call<T>>)
    ensures RunServer(p, codec, calls).0 == p
    ensures forall o :: o in RunServer(p, codec, calls).1 ==> o.result == ServerRetrieve(p, o.key, codec)
    decreases |calls|
  {
    if calls != [] {
      ServerCallsChangeNothing(ServerApply(p, calls[0]), codec, calls[1..]);
    }
  }
}
