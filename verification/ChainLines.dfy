/** The lines of the audit log, its links, and its cut records. */
module ChainLines {
  import opened Common

  type Byte = b: nat | b < 256

  /** What a link field holds.  `Of(line)` is the SHA-256 of a line's bytes (section 6.2 of FIPS 180-4),
      taken as a free constructor: injective, never `genesis`, and no line holds its own digest.
      `Other` is any text that is neither. */
  datatype Digest = Genesis | Of(line: Line) | Other(n: nat)

  /** One line between two newlines, by what `JSON.parse` makes of it.  `Torn` is any non-blank text that
      does not parse, `Legacy` an object with no `prevDigest`, `Row` a chained object. */
  datatype Line =
    | Blank
    | Torn(first: Byte, rest: seq<Byte>)
    | Legacy(id: nat)
    | Row(body: Body, prev: Digest)
    | Cut(cut: CutRecord)

  datatype Body =
    | Event(id: nat)
    | Integrity(id: nat, condition: Condition)

  /** The conditions an `audit-integrity-condition` row can record. */
  datatype Condition =
    | DamagedTail(conditionVersion: int, byteLength: int, digest: Digest)
    | HistoryReset(retiredPosition: int)
    | ChainVerified(entries: int, cuts: int)
    | CheckpointReanchored(newPosition: int)

  datatype CutVersion = V1 | V2 | UnknownVersion

  /** A cut record as parsed: the version-2 fields may be missing or of another type (`None`). */
  datatype CutRecord = CutRecord(
    cutAtMs: int,
    removedFrom: Digest,
    removedTo: Digest,
    removedCount: int,
    version: CutVersion,
    removedChained: Option<int>,
    removedLegacy: Option<int>,
    legacyTail: Option<Digest>)

  const CONDITION_VERSION := 1

  /** The length in bytes of a line that does not parse. */
  function ByteLength(line: Line): nat
    requires line.Torn?
  {
    1 + |line.rest|
  }

  /** How many rows the digest reaches back through: a row's digest reaches one further than its link. */
  function Reach(d: Digest): nat {
    match d
    case Of(Row(_, prev)) => 1 + Reach(prev)
    case _ => 0
  }

  /** A version-2 cut carries the fields that version defines. */
  predicate WellFormedVersion2(c: CutRecord) {
    && c.removedChained.Some?
    && c.removedLegacy.Some?
    && (if c.removedLegacy.value == 0 then c.legacyTail.None? else c.legacyTail.Some?)
  }

  /** A version-2 cut that removed legacy rows only: it moves no link. */
  predicate LegacyOnly(c: CutRecord) {
    && c.version.V2?
    && c.removedChained == Some(0)
    && c.removedFrom == Genesis
    && c.removedTo == Genesis
  }

  /** The line is neither blank nor unparseable: an object. */
  predicate Parses(line: Line) {
    line.Legacy? || line.Row? || line.Cut?
  }

  /** A row or a legacy row: what the log and its archives hold, cut records being kept apart. */
  predicate IsEntry(line: Line) {
    line.Legacy? || line.Row?
  }
}
