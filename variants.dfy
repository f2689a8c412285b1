/**
 * The request variants that the envelope parser can dispatch to. Each one is a PHP class
 * extending `AbstractRequest`; their own source (their `TYPE` constants, their factories and
 * their `validateSignature()` policies) is not part of this model and is supplied as a
 * `VariantClasses` value.
 */
module Variants {
  import opened JsonValues

  /** The fourteen concrete request classes, one constructor per class. */
  datatype RequestClass =
    // Standard types
    | IntentRequest
    | LaunchRequest
    | SessionEndedRequest
    // AudioPlayer types
    | PlaybackStartedRequest
    | PlaybackNearlyFinishedRequest
    | PlaybackFinishedRequest
    | PlaybackStoppedRequest
    | PlaybackFailedRequest
    // PlaybackController types
    | NextCommandIssued
    | PauseCommandIssued
    | PlayCommandIssued
    | PreviousCommandIssued
    // System types
    | ExceptionEncounteredRequest
    // Display types
    | ElementSelectedRequest

  /**
   * What each variant class contributes, left abstract:
   * - `typeOf(c)` is the class constant `c::TYPE`, the wire-level discriminator;
   * - `validateSignature(c)` is the class's signature policy;
   * - `fromAmazonRequest(c, raw)` is the fields `c::fromAmazonRequest` reads from the
   *   `request` subtree.
   */
  datatype VariantClasses = VariantClasses(
    typeOf: RequestClass -> string,
    validateSignature: RequestClass -> bool,
    fromAmazonRequest: (RequestClass, Json) -> map<string, Json>)

  /** A constructed request variant: the class that was instantiated and what it read. */
  datatype AbstractRequest = AbstractRequest(requestClass: RequestClass, fields: map<string, Json>)

  /** No two classes share a `TYPE` constant. */
  ghost predicate DistinctTypes(v: VariantClasses)
  {
    forall c, d :: v.typeOf(c) == v.typeOf(d) ==> c == d
  }
}
