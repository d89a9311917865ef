/** The block decoder as a resumable machine: at each label it waits for a fixed number of bits,
    and Advance is the code between one GET_BITS and the next. */
module Decompressor {
  import opened Bits
  import opened ByteMaps
  import opened CountingSort
  import opened HuffmanCodes
  import opened MoveToFront
  import opened Rotations

  const G_SIZE := 50
  const RUN_LIMIT := 2 * 1024 * 1024

  datatype Label =
    | Idle | Output
    | Magic(k: nat) | BlkHdr(k: nat) | BCrc(k: nat) | RandBit | OrigPtr(k: nat)
    | Mapping1 | Mapping2
    | Selector1 | Selector2 | Selector3
    | Coding1 | Coding2 | Coding3
    | Mtf(k: nat)
    | EndHdr(k: nat) | CCrc(k: nat)

  datatype Status = Ok | StreamEnd | DataErrorMagic | DataError

  datatype Header = Header(blockSize100k: nat, currBlockNo: nat, storedBlockCRC: nat,
                           blockRandomised: bool, origPtr: nat, storedCombinedCRC: nat)

  /** inUse16[..i], and inUse with seqToUnseq once made. */
  datatype Maps = Maps(i: nat, j: nat, inUse16: seq<bool>, inUse: seq<bool>, seqToUnseq: seq<Byte>)

  datatype Selectors = Selectors(nGroups: nat, nSelectors: nat, j: nat, selectorMtf: seq<nat>, selector: seq<nat>)

  /** Rows len[..t] complete, row t known up to its current length. */
  datatype Coding = Coding(curr: int, row: seq<nat>, len: seq<seq<nat>>, tables: seq<Tables>)

  datatype Group = Group(groupNo: int, groupPos: nat, gSel: nat, zn: nat, zvec: nat)

  datatype Runs = Runs(es: int, n: nat, mtf: seq<nat>, block: seq<Byte>)

  datatype Transform = Transform(tt: seq<nat>, tPos: nat, k0: nat, nblockUsed: nat)

  datatype Decoder = Decoder(state: Label, hdr: Header, maps: Maps, sel: Selectors, cod: Coding,
                             grp: Group, run: Runs, out: Transform)

  datatype Outcome = More(d: Decoder) | Return(d: Decoder, code: Status)

  const Start := Decoder(Magic(1), Header(0, 0, 0, false, 0, 0), Maps(0, 0, [], [], []),
                         Selectors(0, 0, 0, [], []), Coding(0, [], [], []), Group(0, 0, 0, 0, 0),
                         Runs(0, 0, [], []), Transform([], 0, 0, 0))

  // ---- what holds whenever the machine waits ----

  function NInUse(d: Decoder): nat { |d.maps.seqToUnseq| }

  function AlphaSize(d: Decoder): nat { NInUse(d) + 2 }

  predicate SizeKnown(d: Decoder) { 1 <= d.hdr.blockSize100k <= 9 }

  function NblockMax(d: Decoder): nat { 100000 * d.hdr.blockSize100k }

  predicate MapsKnown(d: Decoder) {
    SizeKnown(d) && 1 <= NInUse(d) <= 256
  }

  predicate AllBelow(s: seq<nat>, n: nat) {
    forall i :: 0 <= i < |s| ==> s[i] < n
  }

  predicate GroupsKnown(d: Decoder) {
    MapsKnown(d) && 2 <= d.sel.nGroups <= 6
  }

  predicate SelectorsKnown(d: Decoder) {
    GroupsKnown(d) && 1 <= d.sel.nSelectors && |d.sel.selector| == d.sel.nSelectors &&
        AllBelow(d.sel.selector, d.sel.nGroups)
  }

  predicate RowOk(row: seq<nat>) { forall i :: 0 <= i < |row| ==> 1 <= row[i] <= 20 }

  predicate RowsOk(rows: seq<seq<nat>>, n: nat) {
    forall t :: 0 <= t < |rows| ==> |rows[t]| == n && RowOk(rows[t])
  }

  predicate CodingLive(d: Decoder) {
    SelectorsKnown(d) && |d.cod.len| < d.sel.nGroups && RowsOk(d.cod.len, AlphaSize(d))
  }

  predicate TablesKnown(d: Decoder) {
    && SelectorsKnown(d)
    && |d.cod.len| == d.sel.nGroups && RowsOk(d.cod.len, AlphaSize(d))
    && |d.cod.tables| == |d.cod.len|
    && forall t :: 0 <= t < |d.cod.len| ==> d.cod.tables[t] == DecodeTables(d.cod.len[t])
  }

  predicate ListOk(d: Decoder) {
    NInUse(d) <= 256 == |d.run.mtf| && AllBelow(d.run.mtf[..NInUse(d)], NInUse(d))
  }

  predicate GroupOk(d: Decoder) {
    && -1 <= d.grp.groupNo < d.sel.nSelectors && d.grp.groupPos <= G_SIZE
    && (d.grp.groupPos > 0 ==> d.grp.groupNo >= 0 && d.grp.gSel < d.sel.nGroups)
  }

  predicate MtfLive(d: Decoder) {
    MapsKnown(d) && TablesKnown(d) && ListOk(d) && GroupOk(d) && |d.run.block| <= NblockMax(d)
  }

  predicate RunLive(d: Decoder) {
    MtfLive(d) && -1 <= d.run.es && 1 <= d.run.n
  }

  predicate Valid(d: Decoder) {
    match d.state
    case Idle => true
    case Output => |d.run.block| == |d.out.tt| && d.hdr.origPtr < |d.run.block| && SizeKnown(d)
    case Magic(k) => 1 <= k <= 4
    case BlkHdr(k) => 1 <= k <= 6 && SizeKnown(d)
    case BCrc(k) => 1 <= k <= 4 && SizeKnown(d)
    case RandBit => SizeKnown(d)
    case OrigPtr(k) => 1 <= k <= 3 && SizeKnown(d)
    case Mapping1 => SizeKnown(d) && d.maps.i == |d.maps.inUse16| < 16
    case Mapping2 => SizeKnown(d) && d.maps.i < 16 && d.maps.j < 16 && |d.maps.inUse16| == 16 && |d.maps.inUse| == 256
    case Selector1 => MapsKnown(d)
    case Selector2 => GroupsKnown(d)
    case Selector3 => GroupsKnown(d) && |d.sel.selectorMtf| < d.sel.nSelectors && d.sel.j < d.sel.nGroups &&
        AllBelow(d.sel.selectorMtf, d.sel.nGroups)
    case Coding1 => CodingLive(d)
    case Coding2 => CodingLive(d) && |d.cod.row| < AlphaSize(d) && RowOk(d.cod.row) && 1 <= d.cod.curr <= 20
    case Coding3 => CodingLive(d) && |d.cod.row| < AlphaSize(d) && RowOk(d.cod.row) && 1 <= d.cod.curr <= 20
    case Mtf(k) => 1 <= k <= 6 && (if k == 3 || k == 4 then RunLive(d) else MtfLive(d)) && 0 <= d.grp.groupNo &&
        d.grp.gSel < d.sel.nGroups && 1 <= d.grp.zn <= 20 + (k + 1) % 2
    case EndHdr(k) => 2 <= k <= 6
    case CCrc(k) => 1 <= k <= 4
  }

  /** The machine wants input in every state but these two. */
  predicate Waiting(d: Decoder) { d.state != Idle && d.state != Output }

  /** How many bits the GET_BITS at the label asks for. */
  function Need(d: Decoder): (n: nat)
    requires Waiting(d) && Valid(d)
    ensures 1 <= n <= 20
  {
    var l := d.state;
    if l.RandBit? || l.Mapping1? || l.Mapping2? || l.Selector3? || l.Coding2? || l.Coding3? then 1
    else if l.Selector1? then 3
    else if l.Selector2? then 15
    else if l.Coding1? then 5
    else if l.Mtf? then (if l.k % 2 == 1 then d.grp.zn else 1)
    else 8
  }

  // ---- headers ----

  const HDR_B := 0x42
  const HDR_Z := 0x5a
  const HDR_H := 0x68
  const HDR_0 := 0x30

  function AfterMagic(d: Decoder, k: nat, v: nat): (o: Outcome)
    requires 1 <= k <= 4
    ensures o.More? ==> Valid(o.d) && Waiting(o.d)
  {
    if k == 4 then
      if v < HDR_0 + 1 || v > HDR_0 + 9 then Return(d.(hdr := d.hdr.(blockSize100k := v)), DataErrorMagic)
      else More(d.(hdr := d.hdr.(blockSize100k := v - HDR_0), state := BlkHdr(1)))
    else if v != [HDR_B, HDR_Z, HDR_H][k - 1] then Return(d, DataErrorMagic)
    else More(d.(state := Magic(k + 1)))
  }

  function AfterBlkHdr(d: Decoder, k: nat, v: nat): (o: Outcome)
    requires 1 <= k <= 6 && SizeKnown(d)
    ensures o.More? ==> Valid(o.d) && Waiting(o.d)
  {
    if k == 1 && v == 0x17 then More(d.(state := EndHdr(2)))
    else if v != [0x31, 0x41, 0x59, 0x26, 0x53, 0x59][k - 1] then Return(d, DataError)
    else if k < 6 then More(d.(state := BlkHdr(k + 1)))
    else More(d.(hdr := d.hdr.(currBlockNo := d.hdr.currBlockNo + 1, storedBlockCRC := 0), state := BCrc(1)))
  }

  function AfterOrigPtr(d: Decoder, k: nat, v: nat): (o: Outcome)
    requires 1 <= k <= 3 && SizeKnown(d)
    ensures o.More? ==> Valid(o.d) && Waiting(o.d)
  {
    var p := Shl(d.hdr.origPtr, 8) + v;
    var d' := d.(hdr := d.hdr.(origPtr := p));
    if k < 3 then More(d'.(state := OrigPtr(k + 1)))
    else if p > 10 + NblockMax(d) then Return(d', DataError)
    else More(d'.(maps := Maps(0, 0, [], d.maps.inUse, d.maps.seqToUnseq), state := Mapping1))
  }

  function AfterEndHdr(d: Decoder, k: nat, v: nat): (o: Outcome)
    requires 2 <= k <= 6
    ensures o.More? ==> Valid(o.d) && Waiting(o.d)
  {
    if v != [0x72, 0x45, 0x38, 0x50, 0x90][k - 2] then Return(d, DataError)
    else if k < 6 then More(d.(state := EndHdr(k + 1)))
    else More(d.(hdr := d.hdr.(storedCombinedCRC := 0), state := CCrc(1)))
  }

  function AfterCCrc(d: Decoder, k: nat, v: nat): (o: Outcome)
    requires 1 <= k <= 4
    ensures o.More? ==> Valid(o.d) && Waiting(o.d)
  {
    var d' := d.(hdr := d.hdr.(storedCombinedCRC := Shl(d.hdr.storedCombinedCRC, 8) + v));
    if k < 4 then More(d'.(state := CCrc(k + 1)))
    else Return(d'.(state := Idle), StreamEnd)
  }

  // ---- the map of bytes in use ----

  /** Moves on to the next group of sixteen that has a byte in use. */
  function NextSixteen(d: Decoder, i: nat): (o: Outcome)
    requires SizeKnown(d) && |d.maps.inUse16| == 16 && |d.maps.inUse| == 256 && i <= 16
    ensures o.More? ==> Valid(o.d) && Waiting(o.d)
    decreases 16 - i
  {
    if i < 16 then
      if d.maps.inUse16[i] then More(d.(maps := d.maps.(i := i, j := 0), state := Mapping2))
      else NextSixteen(d, i + 1)
    else
      var d' := d.(maps := d.maps.(i := i, seqToUnseq := InUseList(d.maps.inUse, 256)));
      if NInUse(d') == 0 then Return(d', DataError) else More(d'.(state := Selector1))
  }

  function AfterMapping1(d: Decoder, v: nat): (o: Outcome)
    requires Valid(d) && d.state == Mapping1
    ensures o.More? ==> Valid(o.d) && Waiting(o.d)
  {
    var d' := d.(maps := d.maps.(i := d.maps.i + 1, inUse16 := d.maps.inUse16 + [v == 1]));
    if d'.maps.i < 16 then More(d') else NextSixteen(d'.(maps := d'.maps.(inUse := seq(256, _ => false))), 0)
  }

  function AfterMapping2(d: Decoder, v: nat): (o: Outcome)
    requires Valid(d) && d.state == Mapping2
    ensures o.More? ==> Valid(o.d) && Waiting(o.d)
  {
    var m := d.maps;
    var d' := d.(maps := m.(j := m.j + 1, inUse := if v == 1 then m.inUse[m.i * 16 + m.j := true] else m.inUse));
    if d'.maps.j < 16 then More(d') else NextSixteen(d', m.i + 1)
  }

  // ---- selectors ----

  /** Undoes the move-to-front coding of the selectors. */
  function UndoSelectors(pos: seq<nat>, mtf: seq<nat>): (r: seq<nat>)
    requires AllBelow(mtf, |pos|)
    ensures |r| == |mtf|
    decreases |mtf|
  {
    if mtf == [] then []
    else [pos[mtf[0]]] + UndoSelectors(MoveFront(pos, mtf[0]), mtf[1..])
  }

  lemma {:induction false} UndoSelectorsBelow(pos: seq<nat>, mtf: seq<nat>, n: nat)
    requires AllBelow(mtf, |pos|) && AllBelow(pos, n)
    ensures AllBelow(UndoSelectors(pos, mtf), n)
    decreases |mtf|
  {
    if mtf != [] {
      UndoSelectorsBelow(MoveFront(pos, mtf[0]), mtf[1..], n);
    }
  }

  function AfterSelector2(d: Decoder, v: nat): (o: Outcome)
    requires GroupsKnown(d)
    ensures o.More? ==> Valid(o.d) && Waiting(o.d)
  {
    var d' := d.(sel := d.sel.(nSelectors := v, j := 0, selectorMtf := []));
    if v < 1 then Return(d', DataError) else More(d'.(state := Selector3))
  }

  function AfterSelector3(d: Decoder, v: nat): (o: Outcome)
    requires Valid(d) && d.state == Selector3
    ensures o.More? ==> Valid(o.d) && Waiting(o.d)
  {
    var s := d.sel;
    if v != 0 then
      var d' := d.(sel := s.(j := s.j + 1));
      if s.j + 1 >= s.nGroups then Return(d', DataError) else More(d')
    else
      var s' := s.(selectorMtf := s.selectorMtf + [s.j], j := 0);
      if |s'.selectorMtf| < s.nSelectors then More(d.(sel := s'))
      else
        UndoSelectorsBelow(Ascending(s.nGroups), s'.selectorMtf, s.nGroups);
        More(d.(sel := s'.(selector := UndoSelectors(Ascending(s.nGroups), s'.selectorMtf)),
                cod := Coding(0, [], [], d.cod.tables), state := Coding1))
  }

  // ---- code lengths ----

  /** The range check made before each bit of a length, and the length's completion. */
  function CheckCurr(d: Decoder): (o: Outcome)
    requires CodingLive(d) && |d.cod.row| < AlphaSize(d) && RowOk(d.cod.row)
    ensures o.More? ==> Valid(o.d) && Waiting(o.d)
  {
    if d.cod.curr < 1 || d.cod.curr > 20 then Return(d, DataError) else More(d.(state := Coding2))
  }

  function MakeTables(len: seq<seq<nat>>): (r: seq<Tables>)
    ensures |r| == |len| && forall t :: 0 <= t < |r| ==> r[t] == DecodeTables(len[t])
  {
    seq(|len|, t requires 0 <= t < |len| => DecodeTables(len[t]))
  }

  function AfterCoding2(d: Decoder, v: nat): (o: Outcome)
    requires Valid(d) && d.state == Coding2
    ensures o.More? ==> Valid(o.d) && Waiting(o.d)
  {
    hide BeginMtf, DecodeTables, CheckCurr;
    if v != 0 then More(d.(state := Coding3))
    else
      var row := d.cod.row + [d.cod.curr as nat];
      if |row| < AlphaSize(d) then CheckCurr(d.(cod := d.cod.(row := row)))
      else
        var d' := d.(cod := d.cod.(row := [], len := d.cod.len + [row]));
        if |d'.cod.len| < d.sel.nGroups then More(d'.(state := Coding1))
        else BeginMtf(d'.(cod := d'.cod.(tables := MakeTables(d'.cod.len))))
  }

  function AfterCoding3(d: Decoder, v: nat): (o: Outcome)
    requires Valid(d) && d.state == Coding3
    ensures o.More? ==> Valid(o.d) && Waiting(o.d)
  {
    CheckCurr(d.(cod := d.cod.(curr := if v == 0 then d.cod.curr + 1 else d.cod.curr - 1)))
  }

  // ---- symbols ----

  function BeginMtf(d: Decoder): (o: Outcome)
    requires TablesKnown(d)
    ensures o.More? ==> Valid(o.d) && Waiting(o.d)
  {
    StartSymbol(d.(grp := Group(-1, 0, 0, 0, 0), run := Runs(-1, 1, Ascending(256), [])), 1)
  }

  /** GET_MTF_VAL up to its first GET_BITS; k is the first of its two labels. */
  function StartSymbol(d: Decoder, k: nat): (o: Outcome)
    requires k == 1 || k == 3 || k == 5
    requires if k == 3 then RunLive(d) else MtfLive(d)
    ensures o.More? ==> Valid(o.d) && Waiting(o.d)
  {
    hide MinLen, Ascending;
    var g := if d.grp.groupPos == 0 then d.grp.(groupNo := d.grp.groupNo + 1, groupPos := G_SIZE) else d.grp;
    if g.groupNo >= d.sel.nSelectors then Return(d.(grp := d.grp.(groupNo := g.groupNo)), DataError)
    else
      var gSel := if d.grp.groupPos == 0 then d.sel.selector[g.groupNo] else g.gSel;
      var zn := d.cod.tables[gSel].minLen;
      MinLenInRange(d.cod.len[gSel]);
      More(d.(grp := Group(g.groupNo, g.groupPos - 1, gSel, zn, 0), state := Mtf(k)))
  }

  lemma MinLenInRange(row: seq<nat>)
    requires RowOk(row) && |row| > 0
    ensures 1 <= MinLen(row) <= 20
  {
    assert MinLen(row) <= row[0];
  }

  function AfterMtf(d: Decoder, k: nat, v: nat): (o: Outcome)
    requires Valid(d) && d.state == Mtf(k)
    ensures o.More? ==> Valid(o.d) && Waiting(o.d)
  {
    hide Walk, DecodeTables, MinLen;
    if k % 2 == 1 then Walk(d.(grp := d.grp.(zvec := v)), k)
    else Walk(d.(grp := d.grp.(zvec := 2 * d.grp.zvec + v)), k - 1)
  }

  predicate SymbolLive(d: Decoder, k: nat) {
    && (k == 1 || k == 3 || k == 5)
    && (if k == 3 then RunLive(d) else MtfLive(d))
    && 0 <= d.grp.groupNo && d.grp.gSel < d.sel.nGroups
  }

  /** The limit test: another bit, or the symbol. */
  function Walk(d: Decoder, k: nat): (o: Outcome)
    requires SymbolLive(d, k) && 1 <= d.grp.zn <= 21
    ensures o.More? ==> Valid(o.d) && Waiting(o.d)
  {
    hide DecodeTables, MinLen, Symbol, Ascending;
    if d.grp.zn > 20 then Return(d, DataError)
    else
      var t := d.cod.tables[d.grp.gSel];
      if d.grp.zvec > t.limit[d.grp.zn] then More(d.(grp := d.grp.(zn := d.grp.zn + 1), state := Mtf(k + 1)))
      else
        var idx := d.grp.zvec - t.base[d.grp.zn];
        SlotFilled(d.cod.len[d.grp.gSel], d.grp.zn, d.grp.zvec);
        if idx < 0 || idx >= MAX_ALPHA_SIZE then Return(d, DataError)
        else Symbol(d, k, t.perm[idx])
  }

  /** A symbol has been read at label k: extend a run, or end the run and take the symbol. */
  function Symbol(d: Decoder, k: nat, sym: nat): (o: Outcome)
    requires SymbolLive(d, k) && sym < AlphaSize(d)
    ensures o.More? ==> Valid(o.d) && Waiting(o.d)
  {
    if sym == RUNA || sym == RUNB then RunDigit(if k == 3 then d else d.(run := d.run.(es := -1, n := 1)), sym)
    else if k == 3 then
      var count := d.run.es + 1;
      var uc := d.maps.seqToUnseq[d.run.mtf[..NInUse(d)][0]];
      if |d.run.block| + count > NblockMax(d) then
        Return(d.(run := d.run.(block := d.run.block + seq(NblockMax(d) - |d.run.block|, _ => uc))), DataError)
      else TakeSymbol(d.(run := d.run.(block := d.run.block + seq(count, _ => uc))), sym)
    else TakeSymbol(d, sym)
  }

  function RunDigit(d: Decoder, sym: nat): (o: Outcome)
    requires RunLive(d) && sym <= 1
    ensures o.More? ==> Valid(o.d) && Waiting(o.d)
  {
    if d.run.n >= RUN_LIMIT then Return(d, DataError)
    else StartSymbol(d.(run := d.run.(es := d.run.es + (sym + 1) * d.run.n, n := d.run.n * 2)), 3)
  }

  function TakeSymbol(d: Decoder, sym: nat): (o: Outcome)
    requires MtfLive(d) && 2 <= sym < AlphaSize(d)
    ensures o.More? ==> Valid(o.d) && Waiting(o.d)
  {
    if sym == NInUse(d) + 1 then Finish(d)
    else if |d.run.block| >= NblockMax(d) then Return(d, DataError)
    else
      var uc := d.run.mtf[..NInUse(d)][sym - 1];
      assert MoveFront(d.run.mtf, sym - 1)[..NInUse(d)] == MoveFront(d.run.mtf[..NInUse(d)], sym - 1);
      StartSymbol(d.(run := d.run.(mtf := MoveFront(d.run.mtf, sym - 1), block := d.run.block + [d.maps.seqToUnseq[uc]])), 5)
  }

  // ---- the inverse transform ----

  /** The byte in the low 8 bits and the row to visit next above them. */
  function PackedTT(last: Block): (tt: seq<nat>)
    ensures |tt| == |last|
  {
    seq(|last|, i requires 0 <= i < |last| => last[i] + 256 * Follow(last)[i])
  }

  lemma Unpack(lo: nat, hi: nat)
    requires lo < 256
    ensures (lo + 256 * hi) / 256 == hi && (lo + 256 * hi) % 256 == lo
  {
  }

  /** The tables that the decoder makes of a block: how often each byte occurs, and where it begins in sorted order */
  function Unzftab(block: Block): (tab: seq<nat>)
    ensures |tab| == 256
  {
    seq(256, v requires 0 <= v < 256 => Count(block, v))
  }

  function Cftab(block: Block): (tab: seq<nat>)
    ensures |tab| == 257
  {
    seq(257, v requires 0 <= v < 257 => Below(block, v))
  }

  /** What is checked of the tables of a block of n bytes: no entry is above n, and the starts do not go down. */
  predicate TablesInRange(unzftab: seq<nat>, cftab: seq<nat>, n: nat) {
    && (forall i :: 0 <= i < |unzftab| ==> unzftab[i] <= n)
    && (forall i :: 0 <= i < |cftab| ==> cftab[i] <= n)
    && (forall i :: 1 <= i < |cftab| ==> cftab[i - 1] <= cftab[i])
  }

  /** The three checks never fail, whatever the block. */
  lemma TablesAlwaysInRange(block: Block)
    ensures TablesInRange(Unzftab(block), Cftab(block), |block|)
  {
    hide Below, Rank;
    BelowAll(block, 256);
    forall i: nat | i < 257 ensures Below(block, i) <= |block| { BelowMonotone(block, i, 256); }
    forall i: nat | 1 <= i < 257 ensures Below(block, i - 1) <= Below(block, i) { BelowMonotone(block, i - 1, i); }
  }

  function Finish(d: Decoder): (o: Outcome)
    requires SizeKnown(d)
    ensures o.Return? && Valid(o.d.(state := BlkHdr(1)))
    ensures (o.code == Ok <==> d.hdr.origPtr < |d.run.block|) && (o.code == Ok || o.code == DataError)
    ensures o.code == Ok ==> o.d.state == Output && Valid(o.d) && o.d.run == d.run && o.d.hdr == d.hdr && o.d.sel == d.sel
    ensures o.code == Ok ==> o.d.out == FirstOutput(d.run.block, d.hdr.origPtr)
  {
    var b := d.run.block;
    TablesAlwaysInRange(b);
    if d.hdr.origPtr >= |b| then Return(d, DataError)
    else if !TablesInRange(Unzftab(b), Cftab(b), |b|) then Return(d, DataError)
    else Return(d.(state := Output, out := FirstOutput(d.run.block, d.hdr.origPtr)), Ok)
  }

  function FirstOutput(last: Block, orig: nat): Transform
    requires orig < |last|
  {
    var tt := PackedTT(last);
    Unpack(last[orig], Follow(last)[orig]);
    var p := tt[orig] / 256;
    Transform(tt, tt[p] / 256, tt[p] % 256, 1)
  }

  // ---- the machine ----

  function Advance(d: Decoder, v: nat): (o: Outcome)
    requires Valid(d) && Waiting(d)
    ensures o.More? ==> Valid(o.d) && Waiting(o.d)
  {
    if HeaderLabel(d.state) then AdvanceHeader(d, v)
    else
    match d.state
    case Mapping1 => AfterMapping1(d, v)
    case Mapping2 => AfterMapping2(d, v)
    case Selector1 =>
      var d' := d.(sel := d.sel.(nGroups := v));
      if v < 2 || v > 6 then Return(d', DataError) else More(d'.(state := Selector2))
    case Selector2 => AfterSelector2(d, v)
    case Selector3 => AfterSelector3(d, v)
    case Coding1 => CheckCurr(d.(cod := d.cod.(curr := v, row := [])))
    case Coding2 => AfterCoding2(d, v)
    case Coding3 => AfterCoding3(d, v)
    case Mtf(k) => AfterMtf(d, k, v)
  }

  predicate HeaderLabel(l: Label) {
    l.Magic? || l.BlkHdr? || l.BCrc? || l.RandBit? || l.OrigPtr? || l.EndHdr? || l.CCrc?
  }

  function AdvanceHeader(d: Decoder, v: nat): (o: Outcome)
    requires Valid(d) && Waiting(d)
    requires HeaderLabel(d.state)
    ensures o.More? ==> Valid(o.d) && Waiting(o.d)
  {
    match d.state
    case Magic(k) => AfterMagic(d, k, v)
    case BlkHdr(k) => AfterBlkHdr(d, k, v)
    case BCrc(k) =>
      var d' := d.(hdr := d.hdr.(storedBlockCRC := Shl(d.hdr.storedBlockCRC, 8) + v));
      More(d'.(state := if k < 4 then BCrc(k + 1) else RandBit))
    case RandBit => More(d.(hdr := d.hdr.(blockRandomised := v == 1, origPtr := 0), state := OrigPtr(1)))
    case OrigPtr(k) => AfterOrigPtr(d, k, v)
    case EndHdr(k) => AfterEndHdr(d, k, v)
    case CCrc(k) => AfterCCrc(d, k, v)
  }

  /** Blocked: the bits left over do not fill the next field. Stopped: the call returned. */
  datatype Result = Blocked(d: Decoder, rest: seq<bool>) | Stopped(d: Decoder, code: Status, rest: seq<bool>)

  function Run(o: Outcome, bits: seq<bool>): (r: Result)
    requires o.More? ==> Valid(o.d) && Waiting(o.d)
    ensures r.Blocked? ==> Valid(r.d) && Waiting(r.d) && |r.rest| < Need(r.d)
    decreases |bits|
  {
    match o
    case Return(d, code) => Stopped(d, code, bits)
    case More(d) =>
      var n := Need(d);
      if |bits| < n then Blocked(d, bits)
      else Run(Advance(d, ValueOf(bits[..n])), bits[n..])
  }

  /** Feeding the bits in two portions reaches the same point as feeding them at once. */
  lemma {:induction false} RunSplit(o: Outcome, a: seq<bool>, b: seq<bool>)
    requires o.More? ==> Valid(o.d) && Waiting(o.d)
    ensures Run(o, a + b) == match Run(o, a)
                             case Blocked(d, rest) => Run(More(d), rest + b)
                             case Stopped(d, code, rest) => Stopped(d, code, rest + b)
    decreases |a|
  {
    if o.More? {
      var n := Need(o.d);
      if |a| >= n {
        assert (a + b)[..n] == a[..n] && (a + b)[n..] == a[n..] + b;
        RunSplit(Advance(o.d, ValueOf(a[..n])), a[n..], b);
      }
    }
  }
}
