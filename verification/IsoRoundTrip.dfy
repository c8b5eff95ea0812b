/** What the reader makes of what the writer wrote. */
module IsoRoundTrip {
  import opened Bytes
  import opened IsoWriter
  import opened IsoReader

  /**
   A list of atoms: each a leaf, whose content was written piece by piece, or a box of atoms.  It stands for one
   properly nested run of StartAtom, Write and EndAtom.
   */
  datatype Forest =
    | Empty
    | Leaf(name: Name, pieces: seq<Data>, rest: Forest)
    | Box(name: Name, kids: Forest, rest: Forest)

  datatype Op = Start(name: Name) | Write(data: Data) | End

  function Writes(pieces: seq<Data>): (ops: seq<Op>)
    ensures |ops| == |pieces| && forall i :: 0 <= i < |ops| ==> ops[i] == Write(pieces[i])
  {
    seq(|pieces|, i requires 0 <= i < |pieces| => Write(pieces[i]))
  }

  /** The run. */
  function OpsOf(f: Forest): (ops: seq<Op>)
  {
    match f
    case Empty => []
    case Leaf(name, pieces, rest) => [Start(name)] + Writes(pieces) + [End] + OpsOf(rest)
    case Box(name, kids, rest) => [Start(name)] + OpsOf(kids) + [End] + OpsOf(rest)
  }

  /** One call, as the methods of Movie do it; an EndAtom without a StartAtom is left out of the run. */
  function Apply(st: State, op: Op): (r: State)
    requires Sound(st)
    ensures Sound(r)
  {
    match op
    case Start(name) => StartOf(st, name)
    case Write(data) => st.(b := st.b + data)
    case End => if st.start == [] then st else EndOf(st)
  }

  function Perform(st: State, ops: seq<Op>): (r: State)
    requires Sound(st)
    ensures Sound(r)
    decreases |ops|
  {
    if ops == [] then st else Perform(Apply(st, ops[0]), ops[1..])
  }

  lemma {:induction false} PerformConcat(st: State, a: seq<Op>, b: seq<Op>)
    requires Sound(st)
    ensures Perform(st, a + b) == Perform(Perform(st, a), b)
    decreases |a|
  {
    hide Apply;
    if a == [] {
      assert a + b == b;
    } else {
      assert (a + b)[1..] == a[1..] + b && (a + b)[0] == a[0];
      PerformConcat(Apply(st, a[0]), a[1..], b);
    }
  }

  /** The bytes of the forest, each atom behind its own size. */
  function Encode(f: Forest): (r: Data)
  {
    match f
    case Empty => []
    case Leaf(name, pieces, rest) => AtomBytes(name, Flat(pieces)) + Encode(rest)
    case Box(name, kids, rest) => AtomBytes(name, Encode(kids)) + Encode(rest)
  }

  lemma {:induction false} PerformWrites(st: State, pieces: seq<Data>)
    requires Sound(st)
    ensures Perform(st, Writes(pieces)) == st.(b := st.b + Flat(pieces))
    decreases |pieces|
  {
    if pieces == [] {
      assert st.b + [] == st.b;
    } else {
      var next := st.(b := st.b + pieces[0]);
      assert Writes(pieces)[1..] == Writes(pieces[1..]);
      PerformWrites(next, pieces[1..]);
      assert next.b + Flat(pieces[1..]) == st.b + Flat(pieces);
    }
  }

  /** StartAtom, anything that only appends, EndAtom. */
  lemma PerformAtom(st: State, name: Name, inside: seq<Op>, data: Data)
    requires Sound(st)
    requires Perform(StartOf(st, name), inside) == StartOf(st, name).(b := StartOf(st, name).b + data)
    ensures Perform(st, [Start(name)] + inside + [End]) == st.(b := st.b + AtomBytes(name, data))
  {
    hide Perform, StartOf, EndOf;
    PerformOne(st, Start(name));
    PerformConcat(st, [Start(name)], inside);
    PerformConcat(st, [Start(name)] + inside, [End]);
    var filled := StartOf(st, name).(b := StartOf(st, name).b + data);
    EndAfterStart(st, name, data);
    StartIsOpen(st, name);
    PerformOne(filled, End);
  }

  lemma PerformOne(st: State, op: Op)
    requires Sound(st)
    ensures Perform(st, [op]) == Apply(st, op)
  {
    hide Apply;
    assert |[op][1..]| == 0;
    assert Perform(Apply(st, op), []) == Apply(st, op);
  }

  lemma StartIsOpen(st: State, name: Name)
    ensures StartOf(st, name).start != []
  {
  }

  /** Every properly nested run appends the encoded forest, with all sizes filled in, and leaves no atom open. */
  lemma {:induction false} RunEncodes(st: State, f: Forest)
    requires Sound(st)
    ensures Perform(st, OpsOf(f)) == st.(b := st.b + Encode(f))
    decreases f, 0
  {
    hide Perform, StartOf, EndOf, AtomBytes, Flat;
    match f
    case Empty =>
      PerformNothing(st);
      assert st.b + [] == st.b;
    case Leaf(name, pieces, rest) =>
      PerformWrites(StartOf(st, name), pieces);
      PerformAtom(st, name, Writes(pieces), Flat(pieces));
      Follow(st, [Start(name)] + Writes(pieces) + [End], AtomBytes(name, Flat(pieces)), rest);
    case Box(name, kids, rest) =>
      RunEncodes(StartOf(st, name), kids);
      PerformAtom(st, name, OpsOf(kids), Encode(kids));
      Follow(st, [Start(name)] + OpsOf(kids) + [End], AtomBytes(name, Encode(kids)), rest);
  }

  lemma PerformNothing(st: State)
    requires Sound(st)
    ensures Perform(st, []) == st
  {
  }

  lemma GrownIsSound(st: State, data: Data)
    requires Sound(st)
    ensures Sound(st.(b := st.b + data))
  {
  }

  lemma Follow(st: State, ops: seq<Op>, data: Data, rest: Forest)
    requires Sound(st) && Perform(st, ops) == st.(b := st.b + data)
    ensures Perform(st, ops + OpsOf(rest)) == st.(b := st.b + (data + Encode(rest)))
    decreases rest, 1
  {
    hide Perform, StartOf, EndOf, Encode, OpsOf, Sound;
    var next := st.(b := st.b + data);
    GrownIsSound(st, data);
    RunEncodes(next, rest);
    PerformConcat(st, ops, OpsOf(rest));
    var more := Encode(rest);
    assert (st.b + data) + more == st.b + (data + more);
  }

  // Reading it back.

  /** The items a readable forest decodes to: its leaves in order, boxes opened. */
  function ItemsOf(f: Forest): (items: seq<Item>)
  {
    match f
    case Empty => []
    case Leaf(name, pieces, rest) =>
      var body := DecodeBody(name, Flat(pieces));
      (if body.Ok? then Splice(body.value) else []) + ItemsOf(rest)
    case Box(_, kids, rest) => ItemsOf(kids) + ItemsOf(rest)
  }

  /** Boxes are of the types the reader opens, and the content of every leaf decodes by itself. */
  predicate Readable(f: Forest)
  {
    match f
    case Empty => true
    case Leaf(name, pieces, rest) => DecodeBody(name, Flat(pieces)).Ok? && Readable(rest)
    case Box(name, kids, rest) => IsContainer(name) && Readable(kids) && Readable(rest)
  }

  lemma AtomFront(name: Name, data: Data, rest: Data)
    requires 8 + |data| < 0x1_0000_0000
    ensures var b := AtomBytes(name, data) + rest;
            && |b| >= 8 + |data| && U32(b) == 8 + |data| && U32(b[4..]) == name
            && b[8..8 + |data|] == data && b[8 + |data|..] == rest
  {
    hide PutU32, U32;
    var b := AtomBytes(name, data) + rest;
    var size, kind := PutU32(8 + |data|), PutU32(name);
    assert b == size + (kind + (data + rest));
    U32OfPut(8 + |data|, kind + (data + rest));
    assert b[4..] == kind + (data + rest);
    U32OfPut(name, data + rest);
    assert b[8..] == data + rest;
    assert b[8..8 + |data|] == b[8..][..|data|];
    assert b[8 + |data|..] == b[8..][|data|..];
  }

  lemma DecodeFirstAtom(name: Name, data: Data, rest: Data)
    requires 8 + |data| < 0x1_0000_0000 && DecodeBody(name, data).Ok?
    ensures DecodeAtoms(AtomBytes(name, data) + rest)
         == match DecodeAtoms(rest)
            case Ok(items) => Ok(Splice(DecodeBody(name, data).value) + items)
            case Eof => Eof
            case Panicked => Panicked
  {
    hide PutU32, U32, DecodeBody, AtomBytes;
    AtomFront(name, data, rest);
  }

  /** A readable forest of less than 2^32 bytes decodes to its leaves, in order. */
  lemma {:induction false} DecodeEncoded(f: Forest)
    requires Readable(f) && |Encode(f)| < 0x1_0000_0000
    ensures DecodeAtoms(Encode(f)) == Ok(ItemsOf(f))
    decreases f
  {
    hide AtomBytes, DecodeAtoms;
    match f
    case Empty =>
      NothingToDecode();
    case Leaf(name, pieces, rest) =>
      AtomSize(name, Flat(pieces));
      DecodeEncoded(rest);
      DecodeFirstAtom(name, Flat(pieces), Encode(rest));
    case Box(name, kids, rest) =>
      AtomSize(name, Encode(kids));
      DecodeEncoded(kids);
      DecodeEncoded(rest);
      DecodeFirstAtom(name, Encode(kids), Encode(rest));
  }

  lemma AtomSize(name: Name, data: Data)
    ensures |AtomBytes(name, data)| == 8 + |data|
  {
  }

  lemma NothingToDecode()
    ensures DecodeAtoms([]) == Ok([])
  {
  }

  /** A type the reader has no case for. */
  predicate Unrecognised(name: Name) {
    && !IsContainer(name)
    && name != TKHD && name != MDHD && name != STSD && name != AVC1 && name != HEV1 && name != MP4A
    && name != MFHD && name != TFHD && name != TFDT && name != TRUN && name != MDAT
  }

  predicate Plain(f: Forest)
  {
    match f
    case Empty => true
    case Leaf(name, _, rest) => Unrecognised(name) && Plain(rest)
    case Box(name, kids, rest) => IsContainer(name) && Plain(kids) && Plain(rest)
  }

  function LeavesOf(f: Forest): (items: seq<Item>)
  {
    match f
    case Empty => []
    case Leaf(name, pieces, rest) => [Atom(name, Flat(pieces))] + LeavesOf(rest)
    case Box(_, kids, rest) => LeavesOf(kids) + LeavesOf(rest)
  }

  lemma {:induction false} PlainItems(f: Forest)
    requires Plain(f)
    ensures Readable(f) && ItemsOf(f) == LeavesOf(f)
  {
    match f
    case Empty =>
    case Leaf(_, _, rest) => PlainItems(rest);
    case Box(_, kids, rest) =>
      PlainItems(kids);
      PlainItems(rest);
  }

  /** What any properly nested run writes on an empty movie is decoded to exactly its leaves in order. */
  lemma AtomTreesRoundTrip(f: Forest)
    requires Plain(f) && |Encode(f)| < 0x1_0000_0000
    ensures Sound(State([], []))
    ensures DecodeAtoms(Perform(State([], []), OpsOf(f)).b) == Ok(LeavesOf(f))
  {
    hide Encode, DecodeAtoms, Perform, Plain;
    RunEncodes(State([], []), f);
    assert [] + Encode(f) == Encode(f);
    PlainItems(f);
    DecodeEncoded(f);
  }

  // Movie fragments.

  lemma ReadU32Is(b: Data, p: nat)
    requires p + 4 <= |b|
    ensures ReadU32(b, p) == (U32(b[p..]), p + 4)
  {
    assert b[p..][0] == b[p] && b[p..][1] == b[p + 1] && b[p..][2] == b[p + 2] && b[p..][3] == b[p + 3];
  }

  /** The number written at position p. */
  lemma ReadBack(front: Data, v: nat, rest: Data)
    requires v < 0x1_0000_0000
    ensures var b := front + PutU32(v) + rest;
            ReadU32(b, |front|) == (v, |front| + 4) && U32(b[|front|..]) == v
  {
    hide PutU32, U32, ReadU32;
    var b := front + PutU32(v) + rest;
    assert b[|front|..] == PutU32(v) + rest;
    ReadU32Is(b, |front|);
    U32OfPut(v, rest);
  }

  lemma MfhdDecoded(sequence: nat)
    requires sequence < 0x1_0000_0000
    ensures DecodeBody(MFHD, MfhdData(sequence)) == Ok(AtomMfhd(sequence))
  {
    hide PutU32, U32;
    ReadBack([0, 0, 0, 0], sequence, []);
    assert [0, 0, 0, 0] + PutU32(sequence) + [] == MfhdData(sequence);
  }

  lemma TfdtDecoded(dts: nat)
    requires dts < 0x1_0000_0000_0000_0000
    ensures DecodeBody(TFDT, TfdtData(dts)) == Ok(AtomTfdt(dts))
  {
    hide PutU64, U64;
    var data := TfdtData(dts);
    assert data[4..] == PutU64(dts) + [];
    U64OfPut(dts, []);
  }

  lemma FlagsOfHeader(v: nat, rest: Data, flags: nat)
    requires flags < 0x100_0000
    ensures var b: Data := [v % 0x100] + PutU24(flags) + rest;
            ReadU8(b, 0).1 == 1 && ReadU24(b, 1) == (flags, 4)
  {
    var b: Data := [v % 0x100] + PutU24(flags) + rest;
    assert b[1] == flags / 0x1_0000 % 0x100 && b[2] == flags / 0x100 % 0x100 && b[3] == flags % 0x100;
    var f1 := flags / 0x100;
    assert f1 / 0x100 == flags / 0x1_0000 && f1 / 0x100 < 0x100;
  }

  lemma TfhdDecoded(tid: nat, duration: nat, size: nat, flags: nat)
    requires tid < 0x1_0000_0000 && duration < 0x1_0000_0000 && size < 0x1_0000_0000 && flags < 0x1_0000_0000
    ensures DecodeTfhd(TfhdData(tid, duration, size, flags)) == AtomTfhd(tid, duration, size, flags)
  {
    hide PutU32, U32, ReadU32, PutU24, ReadU24, ReadU8;
    var head := [0] + PutU24(0x2_0038);
    var data := TfhdData(tid, duration, size, flags);
    var p1, p2, p3, p4 := PutU32(tid), PutU32(duration), PutU32(size), PutU32(flags);
    assert data == head + (p1 + p2 + p3 + p4);
    FlagsOfHeader(0, p1 + p2 + p3 + p4, 0x2_0038);
    assert data == head + p1 + (p2 + p3 + p4);
    ReadBack(head, tid, p2 + p3 + p4);
    assert data == (head + p1) + p2 + (p3 + p4);
    ReadBack(head + p1, duration, p3 + p4);
    ReadBack(head + p1 + p2, size, p4);
    assert data == (head + p1 + p2 + p3) + p4 + [];
    ReadBack(head + p1 + p2 + p3, flags, []);
  }

  lemma TrunDecoded(at: nat, cts: nat)
    requires at + 32 < 0x1_0000_0000 && cts < 0x1_0000_0000
    ensures DecodeTrun(TrunData(at, cts))
         == AtomTrun(Trun(at + 8 + |TrunData(at, cts)| + 8, 0, [], [], [], if cts == 0 then [] else [cts]))
  {
    hide PutU32, U32, ReadU32, PutU24, ReadU24, ReadU8;
    var data := TrunData(at, cts);
    var offset := at + 8 + |data| + 8;
    var flags := if cts == 0 then 0x1 else 0x801;
    var head := [0] + PutU24(flags);
    var one, off, last := PutU32(1), PutU32(offset), if cts == 0 then [] else PutU32(cts);
    assert data == head + (one + off + last);
    FlagsOfHeader(0, one + off + last, flags);
    assert data == head + one + (off + last);
    ReadBack(head, 1, off + last);
    assert data == (head + one) + off + last;
    ReadBack(head + one, offset, last);
    if cts != 0 {
      assert data == (head + one + off) + last + [];
      ReadBack(head + one + off, cts, []);
    }
    SingleSample(data, 12, flags, Trun(offset, 0, [], [], [], []));
  }

  lemma SingleSample(data: Data, p: nat, flags: nat, t: Trun)
    requires flags == 0x1 || flags == 0x801
    ensures Samples(data, p, flags, 1, t)
         == if flags == 0x1 then t else t.(cts := t.cts + [ReadU32(data, p).0])
  {
    hide ReadU32;
    var next := if flags == 0x1 then t else t.(cts := t.cts + [ReadU32(data, p).0]);
    assert Samples(data, if flags == 0x1 then p else ReadU32(data, p).1, flags, 0, next) == next;
  }

  /** The arguments of WriteMovieFragment, in their uint32 and uint64 ranges. */
  datatype Fragment = Fragment(sequence: nat, tid: nat, duration: nat, size: nat, flags: nat, dts: nat, cts: nat)

  predicate InRange(f: Fragment) {
    && f.sequence < 0x1_0000_0000 && f.tid < 0x1_0000_0000 && f.duration < 0x1_0000_0000 && f.size < 0x1_0000_0000
    && f.flags < 0x1_0000_0000 && f.dts < 0x1_0000_0000_0000_0000 && f.cts < 0x1_0000_0000
  }

  /** What WriteMovieFragment and WriteData append to a movie of `at` bytes. */
  function Written(at: nat, f: Fragment, data: Data): (b: Data)
  {
    FragmentBytes(at, f.sequence, f.tid, f.duration, f.size, f.flags, f.dts, f.cts) + AtomBytes(MDAT, data)
  }

  function MoofSize(cts: nat): (n: nat)
  {
    if cts == 0 then 100 else 104
  }

  lemma DecodeLastAtom(name: Name, data: Data)
    requires 8 + |data| < 0x1_0000_0000 && DecodeBody(name, data).Ok?
    ensures DecodeAtoms(AtomBytes(name, data)) == Ok(Splice(DecodeBody(name, data).value))
  {
    hide DecodeAtoms, DecodeBody, AtomBytes;
    DecodeFirstAtom(name, data, []);
    NothingToDecode();
    assert AtomBytes(name, data) + [] == AtomBytes(name, data);
    assert Splice(DecodeBody(name, data).value) + [] == Splice(DecodeBody(name, data).value);
  }

  /** Two or three atoms in a row, none of them a container. */
  lemma TwoAtoms(n1: Name, d1: Data, n2: Name, d2: Data)
    requires 8 + |d1| < 0x1_0000_0000 && 8 + |d2| < 0x1_0000_0000
    requires DecodeBody(n1, d1).Ok? && DecodeBody(n2, d2).Ok?
    ensures DecodeAtoms(AtomBytes(n1, d1) + AtomBytes(n2, d2))
         == Ok(Splice(DecodeBody(n1, d1).value) + Splice(DecodeBody(n2, d2).value))
  {
    hide DecodeAtoms, DecodeBody, AtomBytes;
    DecodeLastAtom(n2, d2);
    DecodeFirstAtom(n1, d1, AtomBytes(n2, d2));
  }

  lemma ThreeAtoms(n1: Name, d1: Data, n2: Name, d2: Data, n3: Name, d3: Data)
    requires 8 + |d1| < 0x1_0000_0000 && 8 + |d2| < 0x1_0000_0000 && 8 + |d3| < 0x1_0000_0000
    requires DecodeBody(n1, d1).Ok? && DecodeBody(n2, d2).Ok? && DecodeBody(n3, d3).Ok?
    requires !DecodeBody(n1, d1).value.Items? && !DecodeBody(n2, d2).value.Items? && !DecodeBody(n3, d3).value.Items?
    ensures DecodeAtoms(AtomBytes(n1, d1) + AtomBytes(n2, d2) + AtomBytes(n3, d3))
         == Ok([DecodeBody(n1, d1).value, DecodeBody(n2, d2).value, DecodeBody(n3, d3).value])
  {
    hide DecodeAtoms, DecodeBody, AtomBytes;
    TwoAtoms(n2, d2, n3, d3);
    DecodeFirstAtom(n1, d1, AtomBytes(n2, d2) + AtomBytes(n3, d3));
    assert AtomBytes(n1, d1) + (AtomBytes(n2, d2) + AtomBytes(n3, d3))
        == AtomBytes(n1, d1) + AtomBytes(n2, d2) + AtomBytes(n3, d3);
    var x, y, z := DecodeBody(n1, d1).value, DecodeBody(n2, d2).value, DecodeBody(n3, d3).value;
    assert [x] + ([y] + [z]) == [x, y, z];
  }

  lemma TfhdBody(data: Data)
    ensures DecodeBody(TFHD, data) == Ok(DecodeTfhd(data))
  {
    hide DecodeTfhd;
  }

  lemma TrunBody(data: Data)
    ensures DecodeBody(TRUN, data) == Ok(DecodeTrun(data))
  {
    hide DecodeTrun;
  }

  lemma ContainerBody(name: Name, data: Data)
    requires IsContainer(name) && DecodeAtoms(data).Ok?
    ensures DecodeBody(name, data) == Ok(Items(DecodeAtoms(data).value))
  {
    hide DecodeAtoms;
  }

  lemma TrafDecoded(at: nat, f: Fragment)
    requires InRange(f) && at + 80 < 0x1_0000_0000
    ensures |TrafBytes(at, f.tid, f.duration, f.size, f.flags, f.dts, f.cts)| == (if f.cts == 0 then 68 else 72)
    ensures DecodeAtoms(TrafBytes(at, f.tid, f.duration, f.size, f.flags, f.dts, f.cts))
         == Ok([AtomTfhd(f.tid, f.duration, f.size, f.flags), AtomTfdt(f.dts),
                AtomTrun(Trun(at + 48 + 8 + |TrunData(at + 48, f.cts)| + 8, 0, [], [], [],
                              if f.cts == 0 then [] else [f.cts]))])
  {
    hide DecodeBody, PutU24, PutU32, PutU64;
    var tfhd, tfdt, trun := TfhdData(f.tid, f.duration, f.size, f.flags), TfdtData(f.dts), TrunData(at + 48, f.cts);
    TfhdDecoded(f.tid, f.duration, f.size, f.flags);
    TfdtDecoded(f.dts);
    TrunDecoded(at + 48, f.cts);
    AtomSize(TFHD, tfhd);
    AtomSize(TFDT, tfdt);
    AtomSize(TRUN, trun);
    TfhdBody(tfhd);
    TrunBody(trun);
    hide DecodeAtoms, DecodeBody, AtomBytes, DecodeTfhd, DecodeTrun, TfhdData, TfdtData, TrunData;
    ThreeAtoms(TFHD, tfhd, TFDT, tfdt, TRUN, trun);
  }

  lemma MoofDecoded(at: nat, f: Fragment)
    requires InRange(f) && at + 112 < 0x1_0000_0000
    ensures var moof := MoofBytes(at, f.sequence, f.tid, f.duration, f.size, f.flags, f.dts, f.cts);
            && 8 + |moof| == MoofSize(f.cts)
            && DecodeAtoms(moof)
            == Ok([AtomMfhd(f.sequence), AtomTfhd(f.tid, f.duration, f.size, f.flags), AtomTfdt(f.dts),
                   AtomTrun(Trun(at + MoofSize(f.cts) + 8, 0, [], [], [], if f.cts == 0 then [] else [f.cts]))])
  {
    hide DecodeBody, DecodeAtoms, AtomBytes, MfhdData, TrafBytes, TrunData, PutU32;
    var mfhd := MfhdData(f.sequence);
    var traf := TrafBytes(at + 32, f.tid, f.duration, f.size, f.flags, f.dts, f.cts);
    MfhdDecoded(f.sequence);
    FragmentSizes(at, f);
    TrafDecoded(at + 32, f);
    AtomSize(MFHD, mfhd);
    AtomSize(TRAF, traf);
    ContainerBody(TRAF, traf);
    TwoAtoms(MFHD, mfhd, TRAF, traf);
    var items := DecodeAtoms(traf).value;
    assert [AtomMfhd(f.sequence)] + items == [AtomMfhd(f.sequence), items[0], items[1], items[2]];
  }

  lemma FragmentSizes(at: nat, f: Fragment)
    ensures |MfhdData(f.sequence)| == 8 && |MfhdBytes(f.sequence)| == 16
    ensures |TrunData(at + 80, f.cts)| == MoofSize(f.cts) + 8 - 96
  {
    hide PutU32;
  }

  lemma FragmentDecodes(at: nat, f: Fragment, data: Data)
    requires InRange(f) && 8 + |data| < 0x1_0000_0000 && at + 112 < 0x1_0000_0000
    ensures DecodeAtoms(Written(at, f, data))
            == Ok([AtomMfhd(f.sequence), AtomTfhd(f.tid, f.duration, f.size, f.flags), AtomTfdt(f.dts),
                   AtomTrun(Trun(at + MoofSize(f.cts) + 8, 0, [], [], [], if f.cts == 0 then [] else [f.cts])),
                   AtomMdat(data)])
  {
    hide PutU24, PutU32, PutU64;
    var moof := MoofBytes(at, f.sequence, f.tid, f.duration, f.size, f.flags, f.dts, f.cts);
    MoofDecoded(at, f);
    ContainerBody(MOOF, moof);
    assert DecodeBody(MDAT, data) == Ok(AtomMdat(data));
    hide DecodeBody, DecodeAtoms, AtomBytes, MoofBytes;
    TwoAtoms(MOOF, moof, MDAT, data);
    var items := DecodeAtoms(moof).value;
    assert items + [AtomMdat(data)] == [items[0], items[1], items[2], items[3], AtomMdat(data)];
  }

  /** The media data ends the fragment. */
  lemma MediaEnds(at: nat, f: Fragment, data: Data)
    requires InRange(f) && at + 112 < 0x1_0000_0000
    ensures var b := Written(at, f, data);
            |b| == MoofSize(f.cts) + 8 + |data| && b[MoofSize(f.cts) + 8..] == data
  {
    hide PutU32, MoofBytes, DecodeAtoms;
    var moof := MoofBytes(at, f.sequence, f.tid, f.duration, f.size, f.flags, f.dts, f.cts);
    MoofDecoded(at, f);
    var front := AtomBytes(MOOF, moof);
    assert |front| == MoofSize(f.cts);
    assert Written(at, f, data) == front + (PutU32(8 + |data|) + PutU32(MDAT)) + data;
  }

  /**
   A fragment written on any movie so far decodes to the arguments it was written with.  The data offset of its track
   run counts to the first byte of the media data from the start of the movie, so it counts from the fragment's own
   start, as its default-base-is-moof flag says, if and only if the movie was empty.
   */
  lemma FragmentRoundTrip(movie: Data, f: Fragment, data: Data)
    requires InRange(f) && 8 + |data| < 0x1_0000_0000 && |movie| + 112 < 0x1_0000_0000
    ensures var offset := |movie| + MoofSize(f.cts) + 8;
            var fragment := Written(|movie|, f, data);
            && DecodeAtoms(fragment)
            == Ok([AtomMfhd(f.sequence), AtomTfhd(f.tid, f.duration, f.size, f.flags), AtomTfdt(f.dts),
                   AtomTrun(Trun(offset, 0, [], [], [], if f.cts == 0 then [] else [f.cts])), AtomMdat(data)])
            && offset <= |movie + fragment| && (movie + fragment)[offset..] == data
            && (offset <= |fragment| && fragment[offset..] == data <==> movie == [])
  {
    hide Written, DecodeAtoms, MoofSize, InRange;
    FragmentDecodes(|movie|, f, data);
    MediaEnds(|movie|, f, data);
    var fragment, offset := Written(|movie|, f, data), |movie| + MoofSize(f.cts) + 8;
    assert (movie + fragment)[offset..] == fragment[MoofSize(f.cts) + 8..];
  }
}
