/** The ISO base media file reader (pkg/iso/reader.go): a recursive parser that flattens the containers it knows. */
module IsoReader {
  import opened Bytes
  import opened Bits
  import opened IsoWriter
  import BitIO
  import Golomb

  /** What DecodeAtom returns: one of the source's atom structures, or the list of a container's atoms. */
  datatype Item =
    | Atom(name: Name, data: Data)
    | AtomTkhd(trackId: nat)
    | AtomMdhd(timeScale: nat)
    | AtomVideo(name: Name, config: Data)
    | AtomAudio(name: Name, channels: nat, sampleRate: nat, config: Data)
    | AtomMfhd(sequence: nat)
    | AtomMdat(data: Data)
    | AtomTfhd(trackId: nat, sampleDuration: nat, sampleSize: nat, sampleFlags: nat)
    | AtomTfdt(decodeTime: nat)
    | AtomTrun(trun: Trun)
    | Items(items: seq<Item>)

  datatype Trun = Trun(dataOffset: nat, firstSampleFlags: nat, durations: seq<nat>, sizes: seq<nat>,
                       flags: seq<nat>, cts: seq<nat>)

  /** A value, the io.EOF error, or the panic of an index or slice bound out of range. */
  datatype Result<+T> = Ok(value: T) | Eof | Panicked

  predicate IsContainer(name: Name) {
    name == MOOV || name == TRAK || name == MDIA || name == MINF || name == STBL || name == MOOF || name == TRAF
  }

  /** `v&mask != 0` for a mask of one bit. */
  predicate Flag(v: nat, mask: nat)
    requires mask > 0
  {
    v / mask % 2 == 1
  }

  // Byte-aligned reads of pkg/bits: past the end every byte is 0.

  function ReadU8(b: Data, p: nat): (r: (nat, nat))
  {
    if p < |b| then (b[p] as nat, p + 1) else (0, p)
  }

  function ReadU16(b: Data, p: nat): (r: (nat, nat))
  {
    var (hi, p1) := ReadU8(b, p);
    var (lo, p2) := ReadU8(b, p1);
    (hi * 0x100 + lo, p2)
  }

  function ReadU24(b: Data, p: nat): (r: (nat, nat))
  {
    var (hi, p1) := ReadU16(b, p);
    var (lo, p2) := ReadU8(b, p1);
    (hi * 0x100 + lo, p2)
  }

  function ReadU32(b: Data, p: nat): (r: (nat, nat))
  {
    var (hi, p1) := ReadU16(b, p);
    var (lo, p2) := ReadU16(b, p1);
    (hi * 0x1_0000 + lo, p2)
  }

  /** The bit reader's cursor in front of byte k, which may have run past the end when no byte is left. */
  predicate Before(b: Data, k: nat, c: Cursor) {
    c.p == 8 * k && k <= |b| && (c.eof ==> k == |b|)
  }

  lemma ReadU8IsBits(b: Data, k: nat, c: Cursor)
    requires Before(b, k, c)
    ensures var (v, d) := GetBits(BitsOf(b), c, 8);
            v == ReadU8(b, k).0 && Before(b, ReadU8(b, k).1, d)
  {
    hide BitsOf, GetBits;
    if c.eof {
      Golomb.EofStays(BitsOf(b), c, 8);
    } else {
      BitIO.AlignedByte(b, k);
    }
  }

  lemma ReadU16IsBits(b: Data, k: nat, c: Cursor)
    requires Before(b, k, c)
    ensures var (v, d) := GetBits(BitsOf(b), c, 16);
            v == ReadU16(b, k).0 && Before(b, ReadU16(b, k).1, d)
  {
    assert Pow2(8) == 0x100;
    hide BitsOf, GetBits, ReadU8, Before, Pow2;
    ReadU8IsBits(b, k, c);
    ReadU8IsBits(b, ReadU8(b, k).1, GetBits(BitsOf(b), c, 8).1);
    GetBitsSplit(BitsOf(b), c, 8, 8);
  }

  /** The reads above are those of the bit reader, wherever it stands on a byte boundary. */
  lemma ReadsAreBits(b: Data, k: nat, c: Cursor)
    requires Before(b, k, c)
    ensures var (v, d) := GetBits(BitsOf(b), c, 24);
            v == ReadU24(b, k).0 && Before(b, ReadU24(b, k).1, d)
    ensures var (v, d) := GetBits(BitsOf(b), c, 32);
            v == ReadU32(b, k).0 && Before(b, ReadU32(b, k).1, d)
  {
    hide BitsOf, GetBits, ReadU16, ReadU24, ReadU32, Before;
    ReadU16IsBits(b, k, c);
    ReadU24IsBits(b, k, c);
    ReadU32IsBits(b, k, c);
  }

  lemma ReadU24IsBits(b: Data, k: nat, c: Cursor)
    requires Before(b, k, c)
    ensures var (v, d) := GetBits(BitsOf(b), c, 24);
            v == ReadU24(b, k).0 && Before(b, ReadU24(b, k).1, d)
  {
    assert Pow2(8) == 0x100;
    hide BitsOf, GetBits, ReadU8, ReadU16, Before, Pow2;
    ReadU16IsBits(b, k, c);
    ReadU8IsBits(b, ReadU16(b, k).1, GetBits(BitsOf(b), c, 16).1);
    GetBitsSplit(BitsOf(b), c, 16, 8);
  }

  lemma ReadU32IsBits(b: Data, k: nat, c: Cursor)
    requires Before(b, k, c)
    ensures var (v, d) := GetBits(BitsOf(b), c, 32);
            v == ReadU32(b, k).0 && Before(b, ReadU32(b, k).1, d)
  {
    assert Pow2(8) == 0x100;
    Pow2Add(8, 8);
    assert Pow2(16) == 0x1_0000;
    hide BitsOf, GetBits, ReadU8, ReadU16, ReadU24, Before, Pow2;
    ReadU16IsBits(b, k, c);
    ReadU16IsBits(b, ReadU16(b, k).1, GetBits(BitsOf(b), c, 16).1);
    GetBitsSplit(BitsOf(b), c, 16, 16);
  }

  /** ReadBytes: all n bytes are passed over, or none. */
  function SkipBytes(b: Data, p: nat, n: nat): (r: nat)
  {
    if p + n > |b| then p else p + n
  }

  function ReadIf(b: Data, p: nat, wanted: bool): (r: (nat, nat))
  {
    if wanted then ReadU32(b, p) else (0, p)
  }

  function DecodeTfhd(data: Data): (item: Item)
  {
    var (_, p0) := ReadU8(data, 0);
    var (flags, p1) := ReadU24(data, p0);
    var (id, p2) := ReadU32(data, p1);
    var (duration, p3) := ReadIf(data, p2, Flag(flags, 0x08));
    var (size, p4) := ReadIf(data, p3, Flag(flags, 0x10));
    var (sampleFlags, p5) := ReadIf(data, p4, Flag(flags, 0x20));
    AtomTfhd(id, duration, size, sampleFlags)
  }

  function Append(xs: seq<nat>, wanted: bool, x: nat): (r: seq<nat>)
  {
    if wanted then xs + [x] else xs
  }

  /** The sample loop of a track run. */
  function Samples(data: Data, p: nat, flags: nat, left: nat, t: Trun): (r: Trun)
    decreases left
  {
    if left == 0 then t
    else
      var (d, p1) := ReadIf(data, p, Flag(flags, 0x100));
      var (s, p2) := ReadIf(data, p1, Flag(flags, 0x200));
      var (f, p3) := ReadIf(data, p2, Flag(flags, 0x400));
      var (c, p4) := ReadIf(data, p3, Flag(flags, 0x800));
      Samples(data, p4, flags, left - 1,
              t.(durations := Append(t.durations, Flag(flags, 0x100), d),
                 sizes := Append(t.sizes, Flag(flags, 0x200), s),
                 flags := Append(t.flags, Flag(flags, 0x400), f),
                 cts := Append(t.cts, Flag(flags, 0x800), c)))
  }

  function DecodeTrun(data: Data): (item: Item)
  {
    var (_, p0) := ReadU8(data, 0);
    var (flags, p1) := ReadU24(data, p0);
    var (samples, p2) := ReadU32(data, p1);
    var (offset, p3) := ReadIf(data, p2, Flag(flags, 0x1));
    var (first, p4) := ReadIf(data, p3, Flag(flags, 0x4));
    AtomTrun(Samples(data, p4, flags, samples, Trun(offset, first, [], [], [], [])))
  }

  /** bytes.Cut: what stands behind the first occurrence of the separator, nothing when there is none. */
  function CutAfter(b: Data, sep: Data): (r: Data)
    decreases |b|
  {
    if |b| < |sep| || b == [] then []
    else if b[..|sep|] == sep then b[|sep|..]
    else CutAfter(b[1..], sep)
  }

  /** The decoder configuration inside an esds box. */
  function AudioConfig(conf: Data): (r: Result<Data>)
  {
    var b := CutAfter(conf, [5, 0x80, 0x80, 0x80]);
    if b != [] && |b| > 1 + b[0] as nat then
      // `1+b[0]` is a byte
      if b[0] == 0xFF then Panicked else Ok(b[1..1 + b[0] as nat])
    else Ok([])
  }

  function DecodeAtom(b: Data): (r: Result<Item>)
    ensures r.Ok? ==> |b| >= 4 && 8 <= U32(b) <= |b|
    decreases |b|, 1
  {
    if |b| < 4 then Panicked
    else if |b| < U32(b) then Eof
    else if U32(b) < 8 then Panicked
    else DecodeBody(U32(b[4..]), b[8..U32(b)])
  }

  function DecodeBody(name: Name, data: Data): (r: Result<Item>)
    decreases |data|, 3
  {
    if IsContainer(name) then
      match DecodeAtoms(data)
      case Ok(items) => Ok(Items(items))
      case Eof => Eof
      case Panicked => Panicked
    else if name == TKHD then
      if |data| < 16 then Panicked else Ok(AtomTkhd(U32(data[12..])))
    else if name == MDHD then
      if |data| < 16 then Panicked else Ok(AtomMdhd(U32(data[12..])))
    else if name == STSD then
      if |data| < 8 then Panicked
      else if U32(data[4..]) == 1 then DecodeAtom(data[8..])
      else Ok(Atom(name, data))
    else if name == AVC1 || name == HEV1 then
      if |data| < 78 then Panicked
      else
        match DecodeAtom(data[78..])
        case Eof => Eof
        case Panicked => Panicked
        case Ok(inner) => if inner.Atom? then Ok(AtomVideo(name, inner.data)) else Ok(Atom(name, data))
    else if name == MP4A then DecodeAudio(data)
    else if name == MFHD then
      if |data| < 8 then Panicked else Ok(AtomMfhd(U32(data[4..])))
    else if name == TFHD then Ok(DecodeTfhd(data))
    else if name == TFDT then
      if |data| < 12 then Panicked else Ok(AtomTfdt(U64(data[4..])))
    else if name == TRUN then Ok(DecodeTrun(data))
    else if name == MDAT then Ok(AtomMdat(data))
    else Ok(Atom(name, data))
  }

  /** The mp4a sample entry; the error of its inner atom is dropped. */
  function DecodeAudio(data: Data): (r: Result<Item>)
    decreases |data|, 2
  {
    var p0 := SkipBytes(data, 0, 16);
    var (channels, p1) := ReadU16(data, p0);
    var p2 := SkipBytes(data, p1, 6);
    var (rate, p3) := ReadU16(data, p2);
    var (fraction, p4) := ReadU16(data, p3);
    match DecodeAtom(data[p4..])
    case Panicked => Panicked
    case Eof => Ok(AtomAudio(MP4A, channels, rate, []))
    case Ok(inner) =>
      if !inner.Atom? then Ok(AtomAudio(MP4A, channels, rate, []))
      else
        match AudioConfig(inner.data)
        case Ok(config) => Ok(AtomAudio(MP4A, channels, rate, config))
        case _ => Panicked
  }

  /** A container's own list is spliced in; anything else is one element. */
  function Splice(item: Item): (r: seq<Item>)
  {
    if item.Items? then item.items else [item]
  }

  function DecodeAtoms(b: Data): (r: Result<seq<Item>>)
    decreases |b|, 2
  {
    if b == [] then Ok([])
    else
      match DecodeAtom(b)
      case Eof => Eof
      case Panicked => Panicked
      case Ok(item) =>
        match DecodeAtoms(b[U32(b)..])
        case Eof => Eof
        case Panicked => Panicked
        case Ok(rest) => Ok(Splice(item) + rest)
  }

  /** The loop of DecodeAtoms. */
  method DecodeAtomList(b: Data) returns (r: Result<seq<Item>>)
    ensures r == DecodeAtoms(b)
  {
    hide DecodeAtom, DecodeAtoms, U32;
    var left := b;
    var atoms: seq<Item> := [];
    while |left| > 0
      invariant DecodeAtoms(left).Ok? ==>
                  DecodeAtoms(b).Ok? && DecodeAtoms(b).value == atoms + DecodeAtoms(left).value
      invariant !DecodeAtoms(left).Ok? ==> DecodeAtoms(b) == DecodeAtoms(left)
      decreases |left|
    {
      DecodeAtomsStep(left);
      var atom := DecodeAtom(left);
      match atom
      case Eof => return Eof;
      case Panicked => return Panicked;
      case Ok(item) =>
        if item.Items? {
          atoms := atoms + item.items;
        } else {
          atoms := atoms + [item];
        }
        left := left[U32(left)..];
    }
    DecodeNoAtoms();
    assert atoms + [] == atoms;
    r := Ok(atoms);
  }

  lemma DecodeNoAtoms()
    ensures DecodeAtoms([]) == Ok([])
  {
  }

  lemma DecodeAtomsStep(b: Data)
    requires b != []
    ensures match DecodeAtom(b)
            case Ok(item) =>
              && 4 <= |b| && 0 < U32(b) <= |b|
              && var rest := DecodeAtoms(b[U32(b)..]);
                 DecodeAtoms(b) == if rest.Ok? then Ok(Splice(item) + rest.value) else rest
            case _ => DecodeAtoms(b) == if DecodeAtom(b).Eof? then Eof else Panicked
  {
    hide DecodeAtom, U32;
  }
}
