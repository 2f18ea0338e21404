/** The foreign serialisation the store calls but does not define: binary
    and protobuf marshalling, protobuf conversion of domain records, and
    header hashing. They are injected as function values; `Lawful` is the
    round-trip assumption the store's load-after-save guarantees rest on. */
module Codecs {
  import opened Types

  /** A wire codec: marshalling may fail; unmarshalling rejects bad bytes. */
  datatype Codec<!T> = Codec(marshal: T -> Option<Bytes>, unmarshal: Bytes -> Option<T>)

  /** Conversion between a domain record and its protobuf message, plus the
      protobuf wire codec. `fromProto` always yields a record together with a
      success flag, because a failed conversion may still have filled in
      part of the record. */
  datatype ProtoCodec<!T, !P> = ProtoCodec(
    toProto: T -> Option<P>,
    fromProto: P -> (T, bool),
    wire: Codec<P>)

  ghost predicate WireRoundTrips<T(!new)>(c: Codec<T>) {
    forall x :: c.marshal(x).Some? ==> c.unmarshal(c.marshal(x).value) == Some(x)
  }

  ghost predicate ProtoRoundTrips<T(!new), P(!new)>(c: ProtoCodec<T, P>) {
    && WireRoundTrips(c.wire)
    && forall x :: c.toProto(x).Some? ==> c.fromProto(c.toProto(x).value) == (x, true)
  }

  /** Everything the store delegates to foreign code. */
  datatype Codecs = Codecs(
    headerHash: Header -> Hash,
    block: Codec<Block>,
    commit: Codec<Commit>,
    state: ProtoCodec<State, PbState>,
    responses: Codec<ABCIResponses>,
    validators: ProtoCodec<ValidatorSet, PbValidatorSet>)

  /** Every codec reproduces what it was given. */
  ghost predicate Lawful(c: Codecs) {
    && WireRoundTrips(c.block)
    && WireRoundTrips(c.commit)
    && ProtoRoundTrips(c.state)
    && WireRoundTrips(c.responses)
    && ProtoRoundTrips(c.validators)
  }
}
