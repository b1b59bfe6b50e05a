/** How a super-block is laid out: a fixed region of metadata records, then payload. */
module Layout {
  import opened Words

  /** The sizes of a tree record and of a free slot on a 64-bit machine. */
  const NODE_BYTES: nat := 40
  const SLOT_BYTES: nat := 24
  const NODE_CAPACITY: nat := 4096
  const DEFAULT_LENGTH: nat := 0x400_0000

  datatype Config = Config(nodeBase: nat, nodeEnd: nat, payloadBase: nat, payloadEnd: nat) {
    predicate WellFormed() {
      0 < nodeBase <= nodeEnd <= payloadBase <= payloadEnd < WORD && payloadBase % 8 == 0
    }
  }

  /** The layout of a mapping of `length` bytes at page-aligned `base`, or the error for a length with no room. */
  function NewLayout(length: nat, base: nat): (r: Result<Config>)
    requires 0 < base && base % 4096 == 0
    requires base + (if length == 0 then DEFAULT_LENGTH else length) < WORD
    ensures r.Err? <==> 0 < length < NODE_CAPACITY * NODE_BYTES + 4096
    ensures r.Err? ==> r.error == ErrInvalidSize
    ensures r.Ok? ==>
      && r.value.WellFormed()
      && r.value.nodeEnd - r.value.nodeBase == NODE_CAPACITY * NODE_BYTES
      && r.value.payloadBase == r.value.nodeEnd
      && r.value.payloadEnd - r.value.nodeBase == (if length == 0 then DEFAULT_LENGTH else length)
      && r.value.payloadEnd - r.value.payloadBase >= 4096
      && r.value.nodeBase == base
    ensures r.Ok? && length == 0 ==> r.value.payloadEnd == base + 67108864
    ensures r.Ok? ==> r.value.payloadBase == base + 163840
  {
    var bytes := if length == 0 then DEFAULT_LENGTH else length;
    if bytes < NODE_CAPACITY * NODE_BYTES + 4096 then Err(ErrInvalidSize)
    else
      PayloadAligned(base);
      var nodeBytes := AlignUp(NODE_CAPACITY * NODE_BYTES, 64);
      Ok(Config(base, base + nodeBytes, AlignUp(base + nodeBytes, 64), base + bytes))
  }

  lemma {:induction false} AlreadyAligned(lines: nat)
    requires 64 * lines + 64 <= WORD
    ensures AlignUp(64 * lines, 64) == 64 * lines
  {
    assert (64 * lines + 63) % WORD == 64 * lines + 63;
    assert (64 * lines + 63) / 64 == lines;
  }

  lemma {:induction false} Eights(n: nat)
    ensures (8 * n) % 8 == 0
  {
    assert 8 * n == 8 * ((8 * n) / 8) + (8 * n) % 8;
  }

  /** The node region is a whole number of cache lines, so the payload starts where it ends. */
  lemma {:induction false} PayloadAligned(base: nat)
    requires base % 4096 == 0 && base + NODE_CAPACITY * NODE_BYTES + 64 <= WORD
    ensures AlignUp(NODE_CAPACITY * NODE_BYTES, 64) == NODE_CAPACITY * NODE_BYTES
    ensures AlignUp(base + NODE_CAPACITY * NODE_BYTES, 64) == base + NODE_CAPACITY * NODE_BYTES
    ensures (base + NODE_CAPACITY * NODE_BYTES) % 8 == 0
  {
    var page := base / 4096;
    var lines := 64 * page + 2560;
    assert base + NODE_CAPACITY * NODE_BYTES == 64 * lines;
    assert NODE_CAPACITY * NODE_BYTES == 64 * 2560;
    AlreadyAligned(2560);
    AlreadyAligned(lines);
    Eights(8 * lines);
  }
}
