/** Mesh envelopes and items, and what makes one acceptable. */
module Items {
  import opened Bytes
  import Text

  datatype Option<+T> = None | Some(value: T)

  /** Instants; the zero instant is Go's zero time.Time. */
  type Time = int
  const ZERO_TIME: Time := 0

  datatype HybridTime = HybridTime(wall: Time, counter: nat) {
    predicate IsZero() {
      wall == ZERO_TIME && counter == 0
    }
  }

  datatype SourceKind =
    | MavlinkProjection
    | RawMavlink
    | PeerSummary
    | Operator
    | RuleEngine
    | OtherSource(name: string)
  {
    predicate Valid() {
      !OtherSource?
    }

    predicate ReplicatesOverMeshByDefault() {
      MavlinkProjection? || PeerSummary? || Operator? || RuleEngine?
    }
  }

  datatype MergePolicy =
    | LastWriterWins
    | SetUnion
    | BoundedTombstone
    | AppendLimited
    | CommandEvidence
    | OtherPolicy(name: string)

  /** Evidence only: it never takes part in ordering. */
  datatype SemStreamsEvidence = SemStreamsEvidence(
    kvRevision: nat, entityVersion: nat, entityUpdatedAt: Time, tripleTimestamp: Time)

  datatype CellID = CellID(node: string, vehicle: string, group: string) {
    predicate Valid() {
      !Text.Blank(node) && !Text.Blank(vehicle) && !Text.Blank(group)
    }

    function String(): string {
      node + "/" + vehicle + "/" + group
    }
  }

  datatype Key = Key(cell: CellID, entity: string)

  datatype Envelope = Envelope(
    cell: CellID,
    entity: string,
    sequence: nat,
    hybrid: Option<HybridTime>,
    operation: string,
    observedAt: Time,
    expiresAt: Time,
    sourceKind: SourceKind,
    confidence: real,
    mergePolicy: MergePolicy,
    payloadHash: string,
    semStreams: Option<SemStreamsEvidence>)
  {
    predicate Valid() {
      && cell.Valid()
      && !Text.Blank(entity) && !Text.Blank(operation) && !Text.Blank(payloadHash)
      && (sequence != 0 || (hybrid.Some? && !hybrid.value.IsZero()))
      && observedAt != ZERO_TIME
      && expiresAt != ZERO_TIME
      && expiresAt > observedAt
      && 0.0 <= confidence <= 1.0
      && sourceKind.Valid()
      && !mergePolicy.OtherPolicy?
      && HASH_PREFIX <= payloadHash
    }
  }

  const HASH_PREFIX := "sha256:"

  /** SHA-256 stands as an injective text of the bytes, of no fixed width. */
  function HashBytes(raw: seq<uint8>): (text: string)
    ensures '\0' !in text && '\n' !in text
  {
    HASH_PREFIX + Hex(raw)
  }

  lemma HashBytesInjective(a: seq<uint8>, b: seq<uint8>)
    requires HashBytes(a) == HashBytes(b)
    ensures a == b
  {
    assert Hex(a) == HashBytes(a)[|HASH_PREFIX|..] == Hex(b);
    HexInjective(a, b);
  }

  datatype Item = Item(envelope: Envelope, payload: seq<uint8>) {
    predicate Valid() {
      && envelope.Valid()
      && payload != []
      && HashBytes(payload) == envelope.payloadHash
    }

    /** What a summary index accepts: a valid item that replicates by default. */
    predicate Admissible() {
      Valid() && envelope.sourceKind.ReplicatesOverMeshByDefault()
    }

    function Cell(): CellID {
      envelope.cell
    }

    function SummaryKey(): Key {
      Key(envelope.cell, envelope.entity)
    }
  }
}
