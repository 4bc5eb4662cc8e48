/** Validation in the order the checks are made, and what passes it. */
module Validation {
  import opened Bytes
  import opened Items
  import opened VersionOrder
  import opened CellDigest
  import opened Watermarks
  import Text

  datatype EnvelopeError =
    | MissingText
    | NoClock
    | NoObservedTime
    | NoExpiry
    | ExpiryNotLater
    | ConfidenceOutOfRange
    | UnknownSourceKind
    | UnknownMergePolicy
    | BadPayloadHash
    | NoPayload
    | PayloadHashMismatch

  // ---- Blank texts ----

  lemma SpaceExact(c: char)
    ensures Text.IsSpace(c) <==>
      c in {'\t', '\n', '\U{0B}', '\U{0C}', '\r', ' ', '\U{85}', '\U{A0}', '\U{1680}', '\U{2000}', '\U{2001}',
            '\U{2002}', '\U{2003}', '\U{2004}', '\U{2005}', '\U{2006}', '\U{2007}', '\U{2008}', '\U{2009}',
            '\U{200A}', '\U{2028}', '\U{2029}', '\U{202F}', '\U{205F}', '\U{3000}'}
  {
  }

  /** Trimming takes white space off both ends and nothing else. */
  lemma TrimExact(s: string)
    ensures var t := Text.Trim(s);
      && (exists i, j :: 0 <= i <= j <= |s| && t == s[i..j] && Text.Blank(s[..i]) && Text.Blank(s[j..]))
      && (t != "" ==> !Text.IsSpace(t[0]) && !Text.IsSpace(t[|t| - 1]))
  {
    hide Text.IsSpace;
    var i := LeftCut(s);
    var j := RightCut(s[i..]);
    assert s[i..][..j] == s[i..i + j];
    assert s[i..][j..] == s[i + j..];
    TrimRightKeepsHead(s[i..]);
  }

  lemma {:induction false} LeftCut(s: string) returns (i: nat)
    ensures i <= |s| && Text.TrimLeft(s) == s[i..] && Text.Blank(s[..i])
    ensures i < |s| ==> !Text.IsSpace(s[i])
  {
    hide Text.IsSpace;
    i := 0;
    if s != [] && Text.IsSpace(s[0]) {
      var k := LeftCut(s[1..]);
      i := k + 1;
      assert s[1..][k..] == s[i..];
      assert s[..i] == [s[0]] + s[1..][..k];
    }
  }

  lemma {:induction false} RightCut(s: string) returns (j: nat)
    ensures j <= |s| && Text.TrimRight(s) == s[..j] && Text.Blank(s[j..])
    ensures 0 < j ==> !Text.IsSpace(s[j - 1])
  {
    hide Text.IsSpace;
    j := |s|;
    if s != [] && Text.IsSpace(s[|s| - 1]) {
      var init := s[..|s| - 1];
      j := RightCut(init);
      assert init[..j] == s[..j];
      assert s[j..] == init[j..] + [s[|s| - 1]];
    }
  }

  lemma TrimRightKeepsHead(s: string)
    ensures Text.TrimRight(s) != "" ==> s != "" && Text.TrimRight(s)[0] == s[0]
  {
    var j := RightCut(s);
  }

  /** A text is blank exactly when trimming leaves nothing of it. */
  lemma BlankExact(s: string)
    ensures Text.Blank(s) <==> Text.Trim(s) == ""
  {
    hide Text.IsSpace, Text.Trim;
    TrimExact(s);
    var t := Text.Trim(s);
    var i, j :| 0 <= i <= j <= |s| && t == s[i..j] && Text.Blank(s[..i]) && Text.Blank(s[j..]);
    if t == "" {
      forall k | 0 <= k < |s| ensures Text.IsSpace(s[k]) {
        if k < i { assert s[..i][k] == s[k]; } else { assert s[j..][k - j] == s[k]; }
      }
    } else {
      assert t[0] == s[i];
    }
  }

  // ---- Envelopes and items ----

  function ValidateEnvelope(e: Envelope): Option<EnvelopeError> {
    if || Text.Trim(e.cell.node) == "" || Text.Trim(e.cell.vehicle) == "" || Text.Trim(e.entity) == ""
       || Text.Trim(e.cell.group) == "" || Text.Trim(e.operation) == "" || Text.Trim(e.payloadHash) == ""
    then Some(MissingText)
    else if e.sequence == 0 && (e.hybrid.None? || e.hybrid.value.IsZero()) then Some(NoClock)
    else if e.observedAt == 0 then Some(NoObservedTime)
    else if e.expiresAt == 0 then Some(NoExpiry)
    else if !(e.expiresAt > e.observedAt) then Some(ExpiryNotLater)
    else if e.confidence < 0.0 || e.confidence > 1.0 then Some(ConfidenceOutOfRange)
    else if e.sourceKind.OtherSource? then Some(UnknownSourceKind)
    else if e.mergePolicy.OtherPolicy? then Some(UnknownMergePolicy)
    else if !("sha256:" <= e.payloadHash) then Some(BadPayloadHash)
    else None
  }

  function ValidateItem(x: Item): Option<EnvelopeError> {
    var error := ValidateEnvelope(x.envelope);
    if error.Some? then error
    else if |x.payload| == 0 then Some(NoPayload)
    else if HashBytes(x.payload) != x.envelope.payloadHash then Some(PayloadHashMismatch)
    else None
  }

  /** The checks pass exactly the items that are valid by their fields. */
  lemma ValidateItemExact(x: Item)
    ensures ValidateItem(x).None? <==> x.Valid()
    ensures x.Valid() <==>
      var e := x.envelope;
      && (forall t :: t in [e.cell.node, e.cell.vehicle, e.entity, e.cell.group, e.operation] ==>
          exists i :: 0 <= i < |t| && !Text.IsSpace(t[i]))
      && (e.sequence > 0 || (e.hybrid.Some? && (e.hybrid.value.wall != 0 || e.hybrid.value.counter > 0)))
      && e.observedAt != 0 && e.expiresAt != 0 && e.observedAt < e.expiresAt
      && 0.0 <= e.confidence <= 1.0
      && !e.sourceKind.OtherSource? && !e.mergePolicy.OtherPolicy?
      && x.payload != [] && e.payloadHash == HashBytes(x.payload)
  {
    hide Text.IsSpace, Text.Trim;
    var e := x.envelope;
    BlankExact(e.cell.node);
    BlankExact(e.cell.vehicle);
    BlankExact(e.entity);
    BlankExact(e.cell.group);
    BlankExact(e.operation);
    BlankExact(e.payloadHash);
    if e.payloadHash == HashBytes(x.payload) { HashIsNotBlank(x); }
  }

  lemma HashIsNotBlank(x: Item)
    requires x.envelope.payloadHash == HashBytes(x.payload)
    ensures !Text.Blank(x.envelope.payloadHash) && "sha256:" <= x.envelope.payloadHash
  {
    assert x.envelope.payloadHash[0] == 's';
  }

  /** A hash is written as sha256: and two lower-case hexadecimal digits a byte. */
  lemma {:induction false} HashTextExact(raw: seq<uint8>, i: nat)
    requires i < |raw|
    ensures HashBytes(raw) == "sha256:" + Hex(raw)
    ensures Hex(raw)[2 * i] == "0123456789abcdef"[raw[i] as int / 16]
    ensures Hex(raw)[2 * i + 1] == "0123456789abcdef"[raw[i] as int % 16]
  {
    hide HexDigit;
    HexDigitExact(raw[0] as int / 16);
    HexDigitExact(raw[0] as int % 16);
    if i > 0 { HashTextExact(raw[1..], i - 1); }
  }

  lemma HexDigitExact(n: nat)
    requires n < 16
    ensures HexDigit(n) == "0123456789abcdef"[n]
  {
  }

  // ---- Watermarks ----

  datatype WatermarkError =
    | MissingCellText
    | NoWatermarkClock
    | NoOperation
    | NoWatermarkTime
    | NoItems
    | BadCellHash
    | DuplicateCell

  function ValidateWatermark(w: CellWatermark): (error: Option<WatermarkError>)
    ensures error != Some(DuplicateCell)
  {
    if Text.Trim(w.cell.node) == "" || Text.Trim(w.cell.vehicle) == "" || Text.Trim(w.cell.group) == ""
    then Some(MissingCellText)
    else if w.version.sequence == 0 && (w.version.hybrid.None? || w.version.hybrid.value.IsZero())
    then Some(NoWatermarkClock)
    else if w.version.operation == "" then Some(NoOperation)
    else if w.version.observedAt == 0 then Some(NoWatermarkTime)
    else if w.itemCount <= 0 then Some(NoItems)
    else if w.cellHash.Malformed? then Some(BadCellHash)
    else None
  }

  lemma ValidateWatermarkExact(w: CellWatermark)
    ensures ValidateWatermark(w).None? <==> w.Valid()
  {
    hide Text.Blank, Text.Trim;
    BlankExact(w.cell.node);
    BlankExact(w.cell.vehicle);
    BlankExact(w.cell.group);
  }

  /** Entries are checked in order, each against the cells seen before it. */
  method ValidateSet(ws: WatermarkSet) returns (error: Option<WatermarkError>)
    ensures error.None? <==> ws.Valid()
    ensures error == Some(DuplicateCell) ==> !ws.OnePerCell()
  {
    hide ValidateWatermark, CellWatermark.Valid;
    var entries := ws.entries;
    var seen: set<CellID> := {};
    for i := 0 to |entries|
      invariant seen == set j | 0 <= j < i :: entries[j].cell
      invariant forall j :: 0 <= j < i ==> entries[j].Valid()
      invariant WatermarkSet(entries[..i]).OnePerCell()
    {
      ValidateWatermarkExact(entries[i]);
      error := ValidateWatermark(entries[i]);
      if error.Some? { return; }
      if entries[i].cell in seen {
        return Some(DuplicateCell);
      }
      seen := seen + {entries[i].cell};
    }
    assert entries[..|entries|] == entries;
    return None;
  }
}
