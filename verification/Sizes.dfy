/** Descriptions of buffers, and the size a buffer gets, in 32-bit arithmetic
    (src/buffer.cpp:339-439). */
module Sizes {
  import opened Common
  import opened Arith

  /** DSBSIZE_MIN, DSBSIZE_MAX, DSBFREQUENCY_MIN and DSBFREQUENCY_MAX of dsound.h. */
  const SIZE_MIN: nat := 4
  const SIZE_MAX: nat := 0x0FFF_FFFF
  const FREQUENCY_MIN: nat := 100
  const FREQUENCY_MAX: nat := 200000

  /** The DSBCAPS flags the models look at. */
  datatype Caps = Caps(
    ctrl3D: bool, ctrlPan: bool, ctrlVolume: bool, ctrlFrequency: bool, ctrlFx: bool,
    locDefer: bool, locHardware: bool, locSoftware: bool)

  /** The KSDATAFORMAT_SUBTYPE of an extensible format. */
  datatype SubFormat = PcmSub | FloatSub | OtherSub

  /** The format tag, and what WAVEFORMATEXTENSIBLE adds to it. */
  datatype FormatTag = Pcm | Float | Extensible(extraSize: nat, validBits: nat, sub: SubFormat) | OtherTag

  /** WAVEFORMATEX; `convertible` says whether ConvertFormat and GetALFormat find a match. */
  datatype Format = Format(
    tag: FormatTag, channels: nat, samplesPerSec: nat, blockAlign: nat, bitsPerSample: nat, avgBytesPerSec: nat,
    convertible: bool)

  /** sizeof(WAVEFORMATEXTENSIBLE) - sizeof(WAVEFORMATEX). */
  const EXTRA_SIZE: nat := 22

  /** DSBUFFERDESC; the format is None for a null pointer. */
  datatype BufferDesc = BufferDesc(caps: Caps, bufferBytes: nat, format: Option<Format>)

  predicate Word(n: nat) { n < 0x1_0000 }
  predicate DWord(n: nat) { n < TWO_32 }

  /** The size rounding of SharedBuffer::Create, src/buffer.cpp:393-395, as the machine does it. */
  function RoundedSize(request: nat, align: nat): (size: nat)
    requires align > 0
  {
    var sum := (request + align - 1) % TWO_32;
    sum - sum % align
  }

  /** The outcome of SharedBuffer::Create, src/buffer.cpp:339-439, apart from running out of memory. */
  function CreateStatus(desc: BufferDesc, f: Format): HResult {
    if f.channels == 0 then InvalidParam
    else if f.samplesPerSec < FREQUENCY_MIN || f.samplesPerSec > FREQUENCY_MAX then InvalidParam
    else if f.blockAlign == 0 then InvalidParam
    else if f.bitsPerSample == 0 || f.bitsPerSample % 8 != 0 then InvalidParam
    else if f.blockAlign != f.channels * f.bitsPerSample / 8 then InvalidParam
    else if f.avgBytesPerSec == 0 then InvalidParam
    else if desc.caps.locHardware && desc.caps.locSoftware then InvalidParam
    else if RoundedSize(desc.bufferBytes, f.blockAlign) < SIZE_MIN then BufferTooSmall
    else if RoundedSize(desc.bufferBytes, f.blockAlign) > SIZE_MAX then InvalidParam
    else if !f.convertible then InvalidParam
    else DsOk
  }

  /** The first half of Buffer::Initialize for a buffer without storage, src/buffer.cpp:986-1019. */
  function StorageStatus(desc: Option<BufferDesc>, is8: bool): HResult {
    if desc.None? || desc.value.format.None? then InvalidParam
    else if desc.value.caps.ctrl3D && desc.value.format.value.channels != 1 && is8 then InvalidParam
    else CreateStatus(desc.value, desc.value.format.value)
  }

  /** size is the least multiple of align at or above n. */
  ghost predicate LeastMultiple(size: nat, align: nat, n: nat)
    requires align > 0
  {
    size % align == 0 && n <= size && forall m: nat :: m % align == 0 && n <= m ==> size <= m
  }

  lemma FloorMultiple(n: nat, align: nat)
    requires align > 0
    ensures (n - n % align) % align == 0
    ensures n - n % align <= n && n < n - n % align + align
  {
    assert n - n % align == n / align * align;
    MultipleMod(n / align, align);
  }

  /** The greatest multiple at or below n + align - 1 is the least one at or above n. */
  lemma FloorIsLeast(n: nat, align: nat)
    requires align > 0
    ensures var sum := n + align - 1; LeastMultiple(sum - sum % align, align, n)
  {
    var sum := n + align - 1;
    FloorMultiple(sum, align);
    forall m: nat | m % align == 0 && n <= m ensures sum - sum % align <= m {
      if m < sum - sum % align {
        MultiplesApart(m, sum - sum % align, align);
      }
    }
  }

  lemma WrappedIsZero(request: nat, align: nat)
    requires DWord(request) && 0 < align && Word(align) && request + align - 1 >= TWO_32
    ensures RoundedSize(request, align) == 0
  {
    var sum := request + align - 1 - TWO_32;
    assert (request + align - 1) % TWO_32 == sum;
    DivModUnique(sum, align, 0, sum);
  }

  /** Without a wrap the size is the least block multiple that holds the request; a request whose
      rounding wraps past 2^32 always collapses to 0, below DSBSIZE_MIN. */
  lemma RoundedSizeExact(request: nat, align: nat)
    requires DWord(request) && 0 < align && Word(align)
    ensures if request + align - 1 < TWO_32 then LeastMultiple(RoundedSize(request, align), align, request)
            else RoundedSize(request, align) == 0
  {
    if request + align - 1 < TWO_32 {
      FloorIsLeast(request, align);
    } else {
      WrappedIsZero(request, align);
    }
  }

  /** A buffer is accepted only with the least block multiple that holds the request as its size,
      within the DirectSound limits, so no wrapped size is ever accepted. */
  lemma AcceptedSize(desc: BufferDesc, f: Format)
    requires DWord(desc.bufferBytes) && Word(f.blockAlign)
    requires CreateStatus(desc, f) == DsOk
    ensures LeastMultiple(RoundedSize(desc.bufferBytes, f.blockAlign), f.blockAlign, desc.bufferBytes)
    ensures SIZE_MIN <= RoundedSize(desc.bufferBytes, f.blockAlign) <= SIZE_MAX
  {
    RoundedSizeExact(desc.bufferBytes, f.blockAlign);
  }

  /** What comes of a description whose samples are whole bytes, n of them, and whose blocks are one sample
      for each channel. */
  lemma WholeSamples(desc: BufferDesc, f: Format, n: nat)
    requires 0 < n && f.bitsPerSample == 8 * n && f.blockAlign == f.channels * n
    ensures CreateStatus(desc, f)
         == if f.channels == 0 || f.samplesPerSec < 100 || f.samplesPerSec > 200000 || f.avgBytesPerSec == 0
               || (desc.caps.locHardware && desc.caps.locSoftware)
            then InvalidParam
            else if RoundedSize(desc.bufferBytes, f.blockAlign) < 4 then BufferTooSmall
            else if RoundedSize(desc.bufferBytes, f.blockAlign) > 0x0FFF_FFFF || !f.convertible then InvalidParam
            else DsOk
  {
    BytesOf(f.channels, n);
  }

  lemma BytesOf(channels: nat, n: nat)
    ensures channels * (8 * n) / 8 == channels * n
    ensures channels > 0 && n > 0 ==> channels * n > 0
  {
    assert channels * (8 * n) == channels * n * 8;
  }

  /** Any other is refused. */
  lemma BrokenSamples(desc: BufferDesc, f: Format)
    requires forall n: nat {:trigger Blocks(f, n)} :: 0 < n && f.bitsPerSample == 8 * n ==> !Blocks(f, n)
    ensures CreateStatus(desc, f) == InvalidParam
  {
    if f.bitsPerSample > 0 && f.bitsPerSample % 8 == 0 {
      var n := f.bitsPerSample / 8;
      BytesOf(f.channels, n);
      assert !Blocks(f, n);
    }
  }

  /** With more bytes in a block than there are in all, no block fits; and no bytes at all are no blocks. */
  lemma NoBlockFits(total: nat, align: nat)
    requires total < align
    ensures total - total % align == 0 && RoundedSize(0, align) == 0
  {
    DivModUnique(total, align, 0, total);
    var sum := (align - 1) % TWO_32;
    DivModUnique(sum, align, 0, sum);
  }

  /** A block is n bytes for each channel. */
  predicate Blocks(f: Format, n: nat) { f.blockAlign == f.channels * n }
}
