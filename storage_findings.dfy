/**
 * `get` and `remove` exactly as src/core/storage.ts writes them. On an expired item `get` awaits
 * `remove(key)`, and `remove` starts by awaiting `get(key)`, which finds the same expired item.
 * `fuel` bounds how deeply the calls may nest; `None` means the bound was used up.
 */
module StorageFindings {
  import opened Wrappers
  import opened StorageErrors
  import opened Types
  import opened StorageSpec

  function GetAsWritten(ctx: Ctx, w: World, key: string, defaultValue: Value, now: int, fuel: nat): Option<(World, Value)>
    decreases fuel
  {
    if fuel == 0 then None
    else
      var fallback := DefaultOrNull(defaultValue);
      match w.store.Get(FullKey(ctx.config, key))
      case None => Some((w, fallback))
      case Some(raw) =>
        match ctx.config.serializer.deserialize(raw)
        case Failure(e) => Some((w.Log(HandleError(ctx, "get", key, e, now)), fallback))
        case Success(item) =>
          if IsExpired(item, now) then
            match RemoveAsWritten(ctx, w, key, now, fuel - 1)
            case None => None
            case Some((w1, out)) =>
              if out.Fail? then Some((w1.Log(HandleError(ctx, "get", key, out.error, now)), fallback)) else Some((w1, fallback))
          else
            match AfterGetPipeline(ctx.middleware, key, item.value)
            case Failure(e) => Some((w.Log(HandleError(ctx, "get", key, e, now)), fallback))
            case Success(v) => Some((w, v))
  }

  function RemoveAsWritten(ctx: Ctx, w: World, key: string, now: int, fuel: nat): Option<(World, Outcome<Thrown>)>
    decreases fuel
  {
    if fuel == 0 then None
    else
      match GetAsWritten(ctx, w, key, Undefined, now, fuel - 1)
      case None => None
      case Some((w1, oldValue)) => Some(RemoveAfterRead(ctx, w1, key, oldValue, now))
  }

  /** On an expired item, `get` as written never returns, however deeply the calls are allowed to nest. */
  lemma {:induction false} ExpiredGetNeverReturns(ctx: Ctx, w: World, key: string, defaultValue: Value, now: int, fuel: nat)
    requires w.store.Get(FullKey(ctx.config, key)).Some?
    requires var d := ctx.config.serializer.deserialize(w.store.Get(FullKey(ctx.config, key)).value);
             d.Success? && IsExpired(d.value, now)
    ensures GetAsWritten(ctx, w, key, defaultValue, now, fuel) == None
    ensures RemoveAsWritten(ctx, w, key, now, fuel) == None
    decreases fuel
  {
    if fuel >= 1 {
      ExpiredGetNeverReturns(ctx, w, key, Undefined, now, fuel - 1);
    }
  }

  /** Away from the expired case, `get` as written answers what the model's `get` does. */
  lemma GetAsWrittenAgreesUnlessExpired(ctx: Ctx, w: World, key: string, defaultValue: Value, now: int, fuel: nat)
    requires fuel >= 1
    requires w.store.Get(FullKey(ctx.config, key)).Some? ==>
               var d := ctx.config.serializer.deserialize(w.store.Get(FullKey(ctx.config, key)).value);
               !(d.Success? && IsExpired(d.value, now))
    ensures GetAsWritten(ctx, w, key, defaultValue, now, fuel) == Some(GetSpec(ctx, w, key, defaultValue, now))
  {
  }

  /**
   * `matchesNamespace` as written accepts a key shorter than prefix and suffix together. With prefix
   * `"ab"` and suffix `"bc"` the engine key `"abc"` passes, `keys()` reports it as `""`, and no
   * logical key has `"abc"` as its physical key, so `get("")` and `remove("")` reach `"abbc"` instead.
   */
  lemma OverlappingNamespaceAccepted(c: Config)
    requires c.prefix == "ab" && c.suffix == "bc"
    ensures MatchesNamespaceAsWritten(c, "abc")
    ensures StripNamespace(c, "abc") == ""
    ensures FullKey(c, StripNamespace(c, "abc")) == "abbc"
    ensures forall key :: FullKey(c, key) != "abc"
    ensures !MatchesNamespace(c, "abc")
  {
    assert "abc"[..2] == "ab";
    assert "abc"[1..] == "bc";
    assert Slice("abc", 2, 3) == "c";
    assert Slice("c", 0, -2) == "";
    forall key
      ensures FullKey(c, key) != "abc"
    {
      assert |FullKey(c, key)| >= 4;
    }
  }
}
