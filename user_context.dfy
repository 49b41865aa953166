/**
 * The backend's in-memory user context (`backend/app/core/context.py`): one
 * process-wide dictionary, read whole and updated by dictionary merge.
 */
module UserContext {
  import opened Wrappers

  /** The JSON-like values a context entry can hold. */
  datatype Value = Null | Bool(b: bool) | Num(n: int) | Str(s: string) | List(items: seq<Value>)

  type Context = map<string, Value>

  /** The six entries the store starts with. */
  function Defaults(): (ctx: Context)
    ensures ctx.Keys == {"education", "marks", "interests", "skills", "career_goal", "language"}
    ensures ctx["education"] == Str("Not set") && ctx["language"] == Str("en")
    ensures ctx["marks"] == Null && ctx["career_goal"] == Null
    ensures ctx["interests"] == List([]) && ctx["skills"] == List([])
  {
    map[
      "education" := Str("Not set"),
      "marks" := Null,
      "interests" := List([]),
      "skills" := List([]),
      "career_goal" := Null,
      "language" := Str("en")]
  }

  /**
   * `ctx.update(d)`: every key of `d` takes `d`'s value, every other key keeps
   * its value, new keys are added and none is removed.
   */
  function Merged(ctx: Context, d: Context): (r: Context)
    ensures r.Keys == ctx.Keys + d.Keys
    ensures forall k :: k in d ==> r[k] == d[k]
    ensures forall k :: k in ctx && k !in d ==> r[k] == ctx[k]
  {
    ctx + d
  }

  /** Applying the same update twice is the same as applying it once. */
  lemma MergedIdempotent(ctx: Context, d: Context)
    ensures Merged(Merged(ctx, d), d) == Merged(ctx, d)
  {
  }

  /** Two updates in a row are one update with their merge, the later winning. */
  lemma MergedCompose(ctx: Context, d1: Context, d2: Context)
    ensures Merged(Merged(ctx, d1), d2) == Merged(ctx, Merged(d1, d2))
  {
  }

  /** The store after a sequence of updates, in order. */
  function ApplyAll(ctx: Context, updates: seq<Context>): (r: Context)
    ensures ctx.Keys <= r.Keys
  {
    if updates == [] then ctx
    else Merged(ApplyAll(ctx, updates[..|updates| - 1]), updates[|updates| - 1])
  }

  /** The value the latest update mentioning `k` gave it, if any update did. */
  function Latest(updates: seq<Context>, k: string): Option<Value> {
    if updates == [] then None
    else if k in updates[|updates| - 1] then Some(updates[|updates| - 1][k])
    else Latest(updates[..|updates| - 1], k)
  }

  /**
   * What `get_context` returns after any sequence of updates: for every key, the
   * value of the latest update that mentioned it, or else its starting value.
   */
  lemma {:induction false} ApplyAllLookup(ctx: Context, updates: seq<Context>, k: string)
    ensures k in ApplyAll(ctx, updates) <==> k in ctx || Latest(updates, k).Some?
    ensures Latest(updates, k).Some? ==> ApplyAll(ctx, updates)[k] == Latest(updates, k).value
    ensures Latest(updates, k).None? && k in ctx ==> ApplyAll(ctx, updates)[k] == ctx[k]
  {
    if updates != [] {
      ApplyAllLookup(ctx, updates[..|updates| - 1], k);
    }
  }

  /** The module-level `USER_CONTEXT` with its two functions. */
  class ContextStore {
    var entries: Context
    /** The updates applied so far, oldest first. */
    ghost var history: seq<Context>

    /** The store is the defaults with every update so far merged in, in order. */
    ghost predicate Valid()
      reads this
    {
      entries == ApplyAll(Defaults(), history)
    }

    constructor ()
      ensures Valid() && history == []
      ensures entries == Defaults()
    {
      entries := Defaults();
      history := [];
    }

    /**
     * `get_context`: the defaults with every update so far merged in, so a key has
     * the value of the latest update that named it, or else its default.
     */
    method GetContext() returns (ctx: Context)
      requires Valid()
      ensures ctx == ApplyAll(Defaults(), history)
      ensures forall k :: k in ctx <==> k in Defaults() || Latest(history, k).Some?
      ensures forall k :: Latest(history, k).Some? ==> ctx[k] == Latest(history, k).value
      ensures forall k :: Latest(history, k).None? && k in Defaults() ==> ctx[k] == Defaults()[k]
    {
      ctx := entries;
      forall k {
        ApplyAllLookup(Defaults(), history, k);
      }
    }

    /** `update_context(d)`: merges `d` into the store in place. */
    method Update(d: Context)
      requires Valid()
      modifies this
      ensures Valid() && history == old(history) + [d]
      ensures entries == Merged(old(entries), d)
      ensures old(entries).Keys <= entries.Keys
    {
      entries := entries + d;
      history := history + [d];
      assert history[..|history| - 1] == old(history);
    }
  }
}
