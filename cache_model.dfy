/**
 * The cache document of src/models/Cache.ts: the fields of `ICache`, the
 * store's `_id`, and the defaults of `CacheSchema`.
 */
module CacheModel {
  import opened Wrappers

  /**
   * One cache document. Times are whole seconds. `created` is the order in
   * which the store created the document (what `createdAt` and the
   * store's natural order reflect); `updatedAt` is refreshed by the store on
   * every write. `expires` is absent on documents written without it, as
   * Cache.controller.ts does.
   */
  datatype CacheRecord = CacheRecord(
    id: nat,
    key: string,
    value: string,
    count: nat,
    expires: Option<int>,
    created: nat,
    updatedAt: int)

  /** The schema default of `count` for a document created without one. */
  const DefaultCount: nat := 1

  /** The length of the value a read miss generates (`generateText(10)`). */
  const GeneratedLength: nat := 10

  /**
   * A document created through the schema with only `key` and `value`
   * (what `new Cache({value, key}).save()` stores): `count` takes its
   * default and there is no `expires`.
   */
  function NewRecord(id: nat, created: nat, key: string, value: string, now: int): (r: CacheRecord)
    ensures r.count == DefaultCount && r.expires.None?
    ensures r.key == key && r.value == value && r.updatedAt == now
  {
    CacheRecord(id, key, value, DefaultCount, None, created, now)
  }

  /**
   * An update document as the controllers build it: each field present is
   * set, each absent one is left as it is.
   */
  datatype Patch = Patch(
    key: Option<string>,
    value: Option<string>,
    expires: Option<int>,
    count: Option<nat>)

  /** `r` after the store applies `p` at time `now`. */
  function Patched(r: CacheRecord, p: Patch, now: int): CacheRecord
  {
    r.(key := p.key.GetOr(r.key),
       value := p.value.GetOr(r.value),
       expires := if p.expires.Some? then p.expires else r.expires,
       count := p.count.GetOr(r.count),
       updatedAt := now)
  }
}
