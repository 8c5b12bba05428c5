/**
 * The plugin's configuration constants (`Constants.Configurations`). Their
 * definitions are not part of this model, so they are left uninterpreted:
 * every fact about them that a proof needs is an explicit precondition.
 */
module Configurations {
  /** Smallest accepted `limit` query parameter. */
  const MinLimit: int
  /** Largest accepted `limit` query parameter; also `ToApiList`'s default page size. */
  const MaxLimit: int
  /** `limit` of a parameters model that the request did not set. */
  const DefaultLimit: int
  /** `page` of a parameters model that the request did not set; the lowest accepted page. */
  const DefaultPageValue: int
}
