/** The bits that represent one block: what compress.c writes, as a function of the block's coding. */
module BlockFormat {
  import opened Bits
  import opened HuffmanCodes
  import opened MoveToFront

  /** Which code table codes which group of fifty symbols, and the code lengths of the tables. */
  datatype Plan = Plan(nGroups: nat, selector: seq<nat>, len: seq<seq<nat>>)

  const G_SIZE := 50
  const MAX_SELECTORS := 18002

  function GroupCount(n: nat): nat {
    (n + 49) / 50
  }

  predicate PlanOk(p: Plan, alphaSize: nat, nMTF: nat) {
    && 2 <= p.nGroups <= 6 && |p.len| == p.nGroups
    && |p.selector| == GroupCount(nMTF) && 1 <= |p.selector| < 32768
    && (forall i :: 0 <= i < |p.selector| ==> p.selector[i] < p.nGroups)
    && forall t :: 0 <= t < p.nGroups ==> RowFits(p.len[t], alphaSize)
  }

  predicate RowFits(row: seq<nat>, alphaSize: nat) {
    |row| == alphaSize && Lengths(row) && Fits(row)
  }

  // ---- header ----

  function BytesAsBits(bytes: seq<Byte>): seq<bool> {
    if bytes == [] then [] else BitsOf(bytes[0], 8) + BytesAsBits(bytes[1..])
  }

  const BLOCK_MAGIC: seq<Byte> := [0x31, 0x41, 0x59, 0x26, 0x53, 0x59]
  const END_MAGIC: seq<Byte> := [0x17, 0x72, 0x45, 0x38, 0x50, 0x90]

  function HeaderBits(crc: nat, origPtr: nat): seq<bool> {
    BytesAsBits(BLOCK_MAGIC) + (BitsOf(crc, 32) + ([false] + BitsOf(origPtr, 24)))
  }

  // ---- the map of bytes in use ----

  type InUse = s: seq<bool> | |s| == 256 witness seq(256, _ => false)

  function Used16(inUse: InUse, i: nat): bool
    requires i < 16
  {
    true in inUse[16 * i..16 * i + 16]
  }

  function Map16Bits(inUse: InUse, i: nat): seq<bool>
    requires i <= 16
    decreases 16 - i
  {
    if i == 16 then [] else [Used16(inUse, i)] + Map16Bits(inUse, i + 1)
  }

  function MapBits(inUse: InUse, i: nat): seq<bool>
    requires i <= 16
    decreases 16 - i
  {
    if i == 16 then []
    else (if Used16(inUse, i) then inUse[16 * i..16 * i + 16] else []) + MapBits(inUse, i + 1)
  }

  // ---- selectors ----

  function SelectorRanks(pos: seq<nat>, selector: seq<nat>): (r: seq<nat>)
    requires Covers(pos, selector)
    ensures |r| == |selector|
    decreases |selector|
  {
    if selector == [] then []
    else
      var p := IndexOf(pos, selector[0]);
      MoveFrontCovers(pos, p, selector[1..]);
      [p] + SelectorRanks(MoveFront(pos, p), selector[1..])
  }

  function Unary(j: nat): seq<bool> {
    if j == 0 then [false] else [true] + Unary(j - 1)
  }

  function UnaryBits(ranks: seq<nat>): seq<bool> {
    if ranks == [] then [] else Unary(ranks[0]) + UnaryBits(ranks[1..])
  }

  // ---- code lengths ----

  function DeltaBits(curr: nat, target: nat): seq<bool>
    decreases if curr < target then target - curr else curr - target
  {
    if curr < target then [true, false] + DeltaBits(curr + 1, target)
    else if curr > target then [true, true] + DeltaBits(curr - 1, target)
    else [false]
  }

  function RowBits(curr: nat, row: seq<nat>): seq<bool>
    decreases |row|
  {
    if row == [] then [] else DeltaBits(curr, row[0]) + RowBits(row[0], row[1..])
  }

  function TableBits(len: seq<seq<nat>>): seq<bool>
    requires forall t :: 0 <= t < |len| ==> |len[t]| > 0
  {
    if len == [] then [] else BitsOf(len[0][0], 5) + RowBits(len[0][0], len[0]) + TableBits(len[1..])
  }

  // ---- symbols ----

  function SymbolBits(p: Plan, mtfv: seq<nat>, alphaSize: nat, k: nat): seq<bool>
    requires PlanOk(p, alphaSize, |mtfv|) && k <= |mtfv|
    requires forall i :: 0 <= i < |mtfv| ==> mtfv[i] < alphaSize
    decreases |mtfv| - k
  {
    if k == |mtfv| then []
    else
      var row := p.len[p.selector[k / 50]];
      BitsOf(Code(row, mtfv[k]), row[mtfv[k]]) + SymbolBits(p, mtfv, alphaSize, k + 1)
  }

  /** Everything between the block header and the next block. */
  function BodyBits(inUse: InUse, alphaSize: nat, p: Plan, mtfv: seq<nat>): seq<bool>
    requires PlanOk(p, alphaSize, |mtfv|) && alphaSize > 0
    requires forall i :: 0 <= i < |mtfv| ==> mtfv[i] < alphaSize
    requires Covers(Ascending(p.nGroups), p.selector)
  {
    Map16Bits(inUse, 0) + (MapBits(inUse, 0) +
    (BitsOf(p.nGroups, 3) + (BitsOf(|p.selector|, 15) +
    (UnaryBits(SelectorRanks(Ascending(p.nGroups), p.selector)) +
    (TableBits(p.len) + SymbolBits(p, mtfv, alphaSize, 0))))))
  }
}
