/** The plain EDF header reader: the ten fields of the fixed 256-byte part, then
    nine per-signal fields, each stored for every signal one after another
    (all names, then all transducer types, and so on), and the search for the
    annotation channel that sizes a data record. */
module EdfHeader {
  import opened Base
  import opened Clock
  import opened EdfText
  import opened ChannelNames

  // ------------------------------------------------------- fixed part

  /** Start and width of the ten fixed fields: version, patient, recording, start
      date, start time, header size, reserved, record count, record duration and
      signal count. */
  const FixedFields: seq<(nat, nat)> :=
    [(0, 8), (8, 80), (88, 80), (168, 8), (176, 8), (184, 8), (192, 44), (236, 8), (244, 8), (252, 4)]

  /** The fixed fields lie end to end and fill the first 256 bytes exactly. */
  lemma FixedFieldsTile()
    ensures FixedFields[0].0 == 0
    ensures forall j :: 0 <= j < 9 ==> FixedFields[j].0 + FixedFields[j].1 == FixedFields[j + 1].0
    ensures FixedFields[9].0 + FixedFields[9].1 == 256
  {
  }

  /** The text of fixed field `j`, sliced out of the first 256 bytes read. */
  function FixedText(file: seq<byte>, j: nat): string
    requires j < 10
  {
    Text(Clip(Clip(file, 0, 256), FixedFields[j].0, FixedFields[j].1))
  }

  datatype HeaderInfo = HeaderInfo(
    version: string,
    patientId: string,
    recordingId: string,
    startDate: string,
    startTime: string,
    headerBytes: int,
    numRecords: int,
    recordDuration: real,
    numChannels: int)

  /** The fixed part. The header size, record count and signal count go through
      `int()` and the record duration through `float()`, with no fallback: the first
      that fails raises. */
  function ParseHeader(file: seq<byte>): (r: Result<HeaderInfo>)
    ensures r.Err? ==> r.error == ValueError
  {
    var headerBytes := ParseInt(FixedText(file, 5));
    var numRecords := ParseInt(FixedText(file, 7));
    var duration := ParseFloat(FixedText(file, 8));
    var numChannels := ParseInt(FixedText(file, 9));
    if headerBytes.Err? then Err(headerBytes.error)
    else if numRecords.Err? then Err(numRecords.error)
    else if duration.Err? then Err(duration.error)
    else if numChannels.Err? then Err(numChannels.error)
    else Ok(HeaderInfo(FixedText(file, 0), FixedText(file, 1), FixedText(file, 2), FixedText(file, 3),
                       FixedText(file, 4), headerBytes.value, numRecords.value, duration.value, numChannels.value))
  }

  // ------------------------------------------------------- per-signal part

  /** Widths of the nine per-signal fields read: label, transducer type, physical
      dimension, physical minimum and maximum, digital minimum and maximum,
      prefiltering and samples per record. */
  const SignalWidths: seq<nat> := [16, 80, 8, 8, 8, 8, 8, 80, 8]

  /** The multipliers of the signal count in the reader's nine seeks. */
  const SeekMultipliers: seq<nat> := [0, 16, 96, 104, 112, 120, 128, 136, 216]

  function SumOf(s: seq<nat>): (total: nat) {
    if s == [] then 0 else SumOf(s[..|s| - 1]) + s[|s| - 1]
  }

  /** Each seek skips exactly the blocks of the fields before it, and the nine blocks
      take 224 bytes per signal. */
  lemma SeeksSkipEarlierBlocks()
    ensures forall k :: 0 <= k < 9 ==> SeekMultipliers[k] == SumOf(SignalWidths[..k])
    ensures SumOf(SignalWidths) == 224
  {
    var w := SignalWidths;
    assert SumOf(w[..0]) == 0;
    assert w[..1][..0] == w[..0];
    assert SumOf(w[..1]) == 16;
    assert w[..2][..1] == w[..1];
    assert SumOf(w[..2]) == 96;
    assert w[..3][..2] == w[..2];
    assert SumOf(w[..3]) == 104;
    assert w[..4][..3] == w[..3];
    assert SumOf(w[..4]) == 112;
    assert w[..5][..4] == w[..4];
    assert SumOf(w[..5]) == 120;
    assert w[..6][..5] == w[..5];
    assert SumOf(w[..6]) == 128;
    assert w[..7][..6] == w[..6];
    assert SumOf(w[..7]) == 136;
    assert w[..8][..7] == w[..7];
    assert SumOf(w[..8]) == 216;
    assert w[..8] == w[..|w| - 1];
  }

  /** Where the seek before field `k`'s loop lands. */
  function BlockStart(k: nat, ns: int): int
    requires k < 9
  {
    256 + SeekMultipliers[k] * ns
  }

  /** Where field `k` of signal `i` is read: after the seek, `i` reads of the field's
      width. */
  function FieldStart(k: nat, ns: nat, i: nat): nat
    requires k < 9
  {
    256 + SeekMultipliers[k] * ns + SignalWidths[k] * i
  }

  /** The text of the `i`-th field of `width` bytes stored from `start` on. */
  function TextAt(file: seq<byte>, start: nat, width: nat, i: nat): string {
    Text(Clip(file, start + width * i, width))
  }

  /** The text of field `k` of signal `i`, read at `FieldStart(k, ns, i)`. */
  function SignalText(file: seq<byte>, k: nat, ns: nat, i: nat): string
    requires k < 9
  {
    TextAt(file, 256 + SeekMultipliers[k] * ns, SignalWidths[k], i)
  }

  /** Where the blocks end, signal count aside: `SeekMultipliers` and then 224. */
  function BlockEndMultiplier(k: nat): nat
    requires k < 9
  {
    if k < 8 then SeekMultipliers[k + 1] else 224
  }

  lemma BlockEnds(k: nat)
    requires k < 9
    ensures SeekMultipliers[k] + SignalWidths[k] == BlockEndMultiplier(k)
  {
  }

  /** Every field read lies in the per-signal part, which ends 224 bytes per signal
      after the fixed part. */
  lemma FieldInside(k: nat, ns: nat, i: nat)
    requires k < 9 && i < ns
    ensures 256 + SeekMultipliers[k] * ns <= FieldStart(k, ns, i)
    ensures FieldStart(k, ns, i) + SignalWidths[k] <= 256 + BlockEndMultiplier(k) * ns
    ensures BlockEndMultiplier(k) <= 224
  {
    BlockEnds(k);
    MulMonotoneInt(i + 1, ns, SignalWidths[k]);
    assert SignalWidths[k] * (i + 1) == SignalWidths[k] * i + SignalWidths[k];
    assert (SeekMultipliers[k] + SignalWidths[k]) * ns == SeekMultipliers[k] * ns + SignalWidths[k] * ns;
  }

  /** No two fields read overlap. */
  lemma FieldsDisjoint(ns: nat, k1: nat, i1: nat, k2: nat, i2: nat)
    requires k1 < 9 && k2 < 9 && i1 < ns && i2 < ns && (k1, i1) != (k2, i2)
    ensures FieldStart(k1, ns, i1) + SignalWidths[k1] <= FieldStart(k2, ns, i2)
         || FieldStart(k2, ns, i2) + SignalWidths[k2] <= FieldStart(k1, ns, i1)
  {
    if k1 == k2 {
      if i1 < i2 {
        MulMonotoneInt(i1 + 1, i2, SignalWidths[k1]);
      } else {
        MulMonotoneInt(i2 + 1, i1, SignalWidths[k1]);
      }
    } else if k1 < k2 {
      FieldInside(k1, ns, i1);
      FieldInside(k2, ns, i2);
      MulMonotoneInt(BlockEndMultiplier(k1), SeekMultipliers[k2], ns);
    } else {
      FieldInside(k1, ns, i1);
      FieldInside(k2, ns, i2);
      MulMonotoneInt(BlockEndMultiplier(k2), SeekMultipliers[k1], ns);
    }
  }

  /** Every byte of the per-signal part belongs to some field read. */
  lemma FieldsCover(ns: nat, p: nat)
    requires 256 <= p < 256 + 224 * ns
    ensures exists k, i :: 0 <= k < 9 && 0 <= i < ns && FieldStart(k, ns, i) <= p < FieldStart(k, ns, i) + SignalWidths[k]
  {
    var k := BlockOf(ns, p, 8);
    BlockEnds(k);
    var base := SeekMultipliers[k] * ns;
    var w := SignalWidths[k];
    var d := p - 256 - base;
    assert 0 <= d < w * ns by {
      assert (SeekMultipliers[k] + w) * ns == base + w * ns;
    }
    var i := SlotOf(d, w, ns);
    assert FieldStart(k, ns, i) == 256 + base + w * i;
  }

  /** Offset `d` in a block of `ns` slots of `w` bytes lies in slot `i`. */
  lemma SlotOf(d: nat, w: nat, ns: nat) returns (i: nat)
    requires 0 < w && d < w * ns
    ensures i < ns && w * i <= d < w * i + w
  {
    i := d / w;
    if ns <= i {
      MulMonotoneInt(ns, i, w);
    }
  }

  /** The block holding byte `p`, searching downward from block `k`. */
  lemma BlockOf(ns: nat, p: nat, k: nat) returns (b: nat)
    requires k < 9
    requires 256 <= p < 256 + BlockEndMultiplier(k) * ns
    ensures b <= k && 256 + SeekMultipliers[b] * ns <= p < 256 + BlockEndMultiplier(b) * ns
    decreases k
  {
    if 256 + SeekMultipliers[k] * ns <= p || k == 0 {
      b := k;
    } else {
      b := BlockOf(ns, p, k - 1);
    }
  }

  // ------------------------------------------------------- channels

  datatype Channel = Channel(
    index: int,
    name: string,
    transducer: string,
    physicalDimension: string,
    physicalMin: real,
    physicalMax: real,
    digitalMin: int,
    digitalMax: int,
    prefiltering: string,
    samplesPerRecord: int,
    samplingRate: real,
    kind: string)

  /** A parse inside `try`/`except`: a failure gives the fallback. */
  function RealOr(r: Result<real>, fallback: real): real {
    if r.Ok? then r.value else fallback
  }

  function IntOr(r: Result<int>, fallback: int): int {
    if r.Ok? then r.value else fallback
  }

  /** The fallbacks: physical limits 0.0, digital limits the 16-bit range, samples
      per record 0. */
  const PhysicalFallback: real := 0.0
  const DigitalMinFallback: int := -32768
  const DigitalMaxFallback: int := 32767
  const SamplesFallback: int := 0

  /** Samples per record over the record duration. */
  function Rate(samples: int, duration: real): real
    requires duration != 0.0
  {
    samples as real / duration
  }

  /** The stripped texts of one signal's nine fields, in block order. */
  datatype SignalFields = SignalFields(
    name: string,
    transducer: string,
    dimension: string,
    physicalMin: string,
    physicalMax: string,
    digitalMin: string,
    digitalMax: string,
    prefiltering: string,
    samples: string)

  /** Signal `i`, numbered from 1, from the texts of its nine fields: the numeric
      ones parsed with their fallbacks, the sampling rate divided out of the samples
      per record, the type found from the label. */
  function ChannelOf(t: SignalFields, i: nat, duration: real): Channel
    requires duration != 0.0
  {
    var samples := IntOr(ParseInt(t.samples), SamplesFallback);
    Channel(i + 1, t.name, t.transducer, t.dimension,
            RealOr(ParseFloat(t.physicalMin), PhysicalFallback),
            RealOr(ParseFloat(t.physicalMax), PhysicalFallback),
            IntOr(ParseInt(t.digitalMin), DigitalMinFallback),
            IntOr(ParseInt(t.digitalMax), DigitalMaxFallback),
            t.prefiltering, samples, Rate(samples, duration), ChannelType(t.name))
  }

  /** The nine field texts of signal `i`. */
  function SignalTexts(file: seq<byte>, ns: nat, i: nat): SignalFields {
    SignalFields(SignalText(file, 0, ns, i), SignalText(file, 1, ns, i), SignalText(file, 2, ns, i),
                 SignalText(file, 3, ns, i), SignalText(file, 4, ns, i), SignalText(file, 5, ns, i),
                 SignalText(file, 6, ns, i), SignalText(file, 7, ns, i), SignalText(file, 8, ns, i))
  }

  /** The record of signal `i` from the bytes of the file. */
  function SignalRecord(file: seq<byte>, h: HeaderInfo): nat -> Channel
    requires h.numChannels >= 0 && h.recordDuration != 0.0
  {
    (i: nat) => ChannelOf(SignalTexts(file, h.numChannels, i), i, h.recordDuration)
  }

  /** What `read_edf_header` returns or raises. A negative seek raises; the loops of
      a count below one run no times; the sampling rate of the first signal divides
      by the record duration. */
  function ReadHeader(file: seq<byte>): (r: Result<(seq<Channel>, HeaderInfo)>)
    ensures ParseHeader(file).Err? ==> r == Err(ParseHeader(file).error)
    ensures r.Ok? ==> var (chs, h) := r.value;
      ParseHeader(file) == Ok(h)
      && |chs| == Max(h.numChannels, 0)
      && forall i :: 0 <= i < |chs| ==>
        chs[i].index == i + 1 && chs[i].kind == ChannelType(chs[i].name)
        && RateFits(chs[i], h.recordDuration)
  {
    match ParseHeader(file)
    case Err(e) => Err(e)
    case Ok(h) =>
      match ChannelsOf(file, h)
      case Err(e) => Err(e)
      case Ok(chs) => ChannelsShape(file, h); Ok((chs, h))
  }

  /** The per-signal part, once the fixed part has given `h`. */
  function ChannelsOf(file: seq<byte>, h: HeaderInfo): (r: Result<seq<Channel>>) {
    if exists k :: 0 <= k < 9 && BlockStart(k, h.numChannels) < 0 then Err(SeekError)
    else if h.numChannels <= 0 then Ok([])
    else if h.recordDuration == 0.0 then Err(ZeroDivisionError)
    else Ok(Tabulate(h.numChannels, SignalRecord(file, h)))
  }

  /** One read: it returns the field at its nominal position, and the file position
      moves on to the next field or stops at the end of the file. */
  lemma ReadStep(file: seq<byte>, start: nat, at: nat, pos: nat, width: nat)
    requires start <= at
    requires pos == if at <= |file| then at else Max(start, |file|)
    ensures Clip(file, pos, width) == Clip(file, at, width)
    ensures pos + |Clip(file, pos, width)| == if at + width <= |file| then at + width else Max(start, |file|)
  {
  }

  /** One per-field loop after its seek: `count` reads of `width` bytes, each
      starting where the previous one stopped. */
  method ReadFields(file: seq<byte>, start: nat, width: nat, count: nat) returns (texts: seq<string>)
    ensures |texts| == count
    ensures forall i :: 0 <= i < count ==> texts[i] == TextAt(file, start, width, i)
  {
    var pos := start;
    ghost var at := start;
    texts := [];
    var i := 0;
    while i < count
      invariant 0 <= i <= count && |texts| == i && at == start + width * i
      invariant pos == if at <= |file| then at else Max(start, |file|)
      invariant forall j :: 0 <= j < i ==> texts[j] == TextAt(file, start, width, j)
    {
      var chunk := Clip(file, pos, width);
      ReadStep(file, start, at, pos, width);
      texts := texts + [Text(chunk)];
      pos := pos + |chunk|;
      at := at + width;
      assert width * (i + 1) == width * i + width;
      i := i + 1;
    }
  }

  /** The nine seeks, each followed by its per-field loop. A seek to a negative
      position raises. */
  method ReadSignalFields(file: seq<byte>, ns: int) returns (r: Result<seq<seq<string>>>)
    ensures r.Err? <==> exists k :: 0 <= k < 9 && BlockStart(k, ns) < 0
    ensures r.Err? ==> r.error == SeekError
    ensures r.Ok? ==> |r.value| == 9
    ensures r.Ok? ==> forall k :: 0 <= k < 9 ==> |r.value[k]| == Max(ns, 0)
    ensures r.Ok? ==> forall k, i :: 0 <= k < 9 && 0 <= i < Max(ns, 0) ==> r.value[k][i] == SignalText(file, k, Max(ns, 0), i)
  {
    var count := Max(ns, 0);
    var fields: seq<seq<string>> := [];
    var k := 0;
    while k < 9
      invariant 0 <= k <= 9 && |fields| == k
      invariant forall j :: 0 <= j < k ==> BlockStart(j, ns) >= 0
      invariant forall j :: 0 <= j < k ==> |fields[j]| == count
      invariant forall j, i :: 0 <= j < k && 0 <= i < count ==> fields[j][i] == SignalText(file, j, count, i)
    {
      if BlockStart(k, ns) < 0 {
        return Err(SeekError);
      }
      var texts := ReadBlock(file, k, ns);
      fields := fields + [texts];
      k := k + 1;
    }
    r := Ok(fields);
  }

  /** One seek and its per-field loop: field `k` of every signal. */
  method ReadBlock(file: seq<byte>, k: nat, ns: int) returns (texts: seq<string>)
    requires k < 9 && BlockStart(k, ns) >= 0
    ensures |texts| == Max(ns, 0)
    ensures forall i :: 0 <= i < Max(ns, 0) ==> texts[i] == SignalText(file, k, Max(ns, 0), i)
  {
    texts := ReadFields(file, BlockStart(k, ns), SignalWidths[k], Max(ns, 0));
  }

  /** Text `i` of field `k`. */
  function Cell(fields: seq<seq<string>>, k: nat, i: nat): string {
    if k < |fields| && i < |fields[k]| then fields[k][i] else ""
  }

  /** Field `k`'s texts side by side: the nine texts of signal `i`. */
  function Column(fields: seq<seq<string>>, i: nat): SignalFields {
    SignalFields(Cell(fields, 0, i), Cell(fields, 1, i), Cell(fields, 2, i),
                 Cell(fields, 3, i), Cell(fields, 4, i), Cell(fields, 5, i),
                 Cell(fields, 6, i), Cell(fields, 7, i), Cell(fields, 8, i))
  }

  /** The record of signal `j` from the field columns. */
  function RecordOf(fields: seq<seq<string>>, duration: real): nat -> Channel
    requires duration != 0.0
  {
    (j: nat) => ChannelOf(Column(fields, j), j, duration)
  }

  /** The loop that builds one record per signal; the first sampling rate divides
      by the record duration. */
  method BuildChannels(fields: seq<seq<string>>, count: nat, duration: real) returns (r: Result<seq<Channel>>)
    ensures count > 0 && duration == 0.0 ==> r == Err(ZeroDivisionError)
    ensures count == 0 ==> r == Ok([])
    ensures count > 0 && duration != 0.0 ==> r == Ok(Tabulate(count, RecordOf(fields, duration)))
  {
    if count == 0 {
      return Ok([]);
    }
    if duration == 0.0 {
      // the division for the first signal raises
      return Err(ZeroDivisionError);
    }
    var make := RecordOf(fields, duration);
    var channels: seq<Channel> := [];
    for i := 0 to count
      invariant channels == Tabulate(i, make)
    {
      channels := channels + [make(i)];
    }
    r := Ok(channels);
  }

  /** `read_edf_header` over the bytes of the file. */
  method ReadEdfHeader(file: seq<byte>) returns (r: Result<(seq<Channel>, HeaderInfo)>)
    ensures r == ReadHeader(file)
  {
    var parsed := ParseHeader(file);
    if parsed.Err? {
      return Err(parsed.error);
    }
    var h := parsed.value;
    var fields := ReadSignalFields(file, h.numChannels);
    if fields.Err? {
      return Err(fields.error);
    }
    var count := Max(h.numChannels, 0);
    var channels := BuildChannels(fields.value, count, h.recordDuration);
    if channels.Err? {
      return Err(channels.error);
    }
    SeekFailsExactly(h.numChannels);
    ColumnsAreSignals(file, h, fields.value, channels.value);
    assert ChannelsOf(file, h) == Ok(channels.value);
    r := Ok((channels.value, h));
  }

  lemma ColumnsAreSignals(file: seq<byte>, h: HeaderInfo, fields: seq<seq<string>>, chs: seq<Channel>)
    requires |fields| == 9 && h.numChannels >= -1
    requires forall k :: 0 <= k < 9 ==> |fields[k]| == Max(h.numChannels, 0)
    requires forall k, i :: 0 <= k < 9 && 0 <= i < Max(h.numChannels, 0) ==> fields[k][i] == SignalText(file, k, Max(h.numChannels, 0), i)
    requires h.numChannels <= 0 ==> chs == []
    requires h.numChannels > 0 ==>
      h.recordDuration != 0.0 && chs == Tabulate(h.numChannels, RecordOf(fields, h.recordDuration))
    ensures h.numChannels <= 0 ==> chs == []
    ensures h.numChannels > 0 ==> chs == Tabulate(h.numChannels, SignalRecord(file, h))
  {
    if h.numChannels > 0 {
      var fromFields := RecordOf(fields, h.recordDuration);
      var fromFile := SignalRecord(file, h);
      forall i | 0 <= i < h.numChannels
        ensures fromFields(i) == fromFile(i)
      {
        ColumnIsSignal(file, h.numChannels, fields, i);
      }
      TabulateSame(h.numChannels, fromFields, fromFile);
    }
  }

  lemma ColumnIsSignal(file: seq<byte>, ns: nat, fields: seq<seq<string>>, i: nat)
    requires |fields| == 9 && i < ns
    requires forall k :: 0 <= k < 9 ==> |fields[k]| == ns
    requires forall k, j :: 0 <= k < 9 && 0 <= j < ns ==> fields[k][j] == SignalText(file, k, ns, j)
    ensures Column(fields, i) == SignalTexts(file, ns, i)
  {
  }

  /** Only a signal count of -2 or less makes a seek negative. */
  lemma SeekFailsExactly(ns: int)
    ensures (exists k :: 0 <= k < 9 && BlockStart(k, ns) < 0) <==> ns <= -2
  {
    if ns <= -2 {
      assert BlockStart(8, ns) < 0;
    }
  }

  /** The reader fails exactly when a fixed numeric field does not parse, the signal
      count is -2 or less, or there are signals and the record duration is zero; a
      signal count of -1 or 0 gives no channels. */
  lemma HeaderOutcome(file: seq<byte>)
    ensures ReadHeader(file).Err? <==>
      ParseHeader(file).Err?
      || ParseHeader(file).value.numChannels <= -2
      || (ParseHeader(file).value.numChannels >= 1 && ParseHeader(file).value.recordDuration == 0.0)
    ensures ParseHeader(file).Ok? && -1 <= ParseHeader(file).value.numChannels <= 0 ==>
      ReadHeader(file) == Ok(([], ParseHeader(file).value))
  {
    match ParseHeader(file)
    case Err(_) =>
    case Ok(h) => ChannelsOutcome(file, h);
  }

  /** The per-signal part fails exactly on a seek before the start of the file or a
      zero record duration with signals present. */
  lemma ChannelsOutcome(file: seq<byte>, h: HeaderInfo)
    ensures ChannelsOf(file, h).Err? <==> h.numChannels <= -2 || (h.numChannels >= 1 && h.recordDuration == 0.0)
    ensures -1 <= h.numChannels <= 0 ==> ChannelsOf(file, h) == Ok([])
  {
    SeekFailsExactly(h.numChannels);
  }

  /** There is one channel per signal, numbered from 1, typed by its name, with a
      sampling rate that times the record duration gives its samples per record. */
  lemma ChannelsShape(file: seq<byte>, h: HeaderInfo)
    requires ChannelsOf(file, h).Ok?
    ensures var chs := ChannelsOf(file, h).value;
      |chs| == Max(h.numChannels, 0)
      && forall i :: 0 <= i < |chs| ==>
        chs[i].index == i + 1 && chs[i].kind == ChannelType(chs[i].name)
        && RateFits(chs[i], h.recordDuration)
  {
    var chs := ChannelsOf(file, h).value;
    SeekFailsExactly(h.numChannels);
    if h.numChannels > 0 {
      forall i | 0 <= i < |chs|
        ensures chs[i].index == i + 1 && chs[i].kind == ChannelType(chs[i].name)
        ensures RateFits(chs[i], h.recordDuration)
      {
        var texts := SignalTexts(file, h.numChannels, i);
        TabulateAt(h.numChannels, SignalRecord(file, h), i);
        ChannelOfShape(texts, i, h.recordDuration);
      }
    }
  }

  /** The sampling rate times the record duration gives the samples per record. */
  predicate RateFits(c: Channel, duration: real) {
    c.samplingRate * duration == c.samplesPerRecord as real
  }

  lemma ChannelOfShape(texts: SignalFields, i: nat, duration: real)
    requires duration != 0.0
    ensures var c := ChannelOf(texts, i, duration);
      c.index == i + 1 && c.name == texts.name && c.kind == ChannelType(texts.name)
      && RateFits(c, duration)
  {
    var c := ChannelOf(texts, i, duration);
    assert c.samplingRate == Rate(c.samplesPerRecord, duration);
    RateTimesDuration(c, duration);
  }

  lemma RateTimesDuration(c: Channel, duration: real)
    requires duration != 0.0 && c.samplingRate == Rate(c.samplesPerRecord, duration)
    ensures RateFits(c, duration)
  {
  }

  /** A label that is empty is of type "Other". */
  lemma EmptyLabelIsOther()
    ensures ChannelType("") == "Other"
  {
    forall k | 0 <= k < |TypeRules()|
      ensures !Passes(TypeRules()[k], "")
    {
      var kw := TypeRules()[k].keywords;
      forall j | 0 <= j < |kw|
        ensures !Contains(Upper(""), kw[j])
      {
        assert kw[j] != [];
      }
    }
    NoRulePasses(TypeRules(), "", "Other");
  }

  /** A channel with empty texts: every numeric field at its fallback. */
  predicate IsBlankChannel(c: Channel) {
    c.name == "" && c.physicalMin == 0.0 && c.physicalMax == 0.0
    && c.digitalMin == -32768 && c.digitalMax == 32767
    && c.samplesPerRecord == 0 && c.samplingRate == 0.0 && c.kind == "Other"
  }

  const BlankTexts: SignalFields := SignalFields("", "", "", "", "", "", "", "", "")

  lemma BlankTextsGiveFallbacks(i: nat, duration: real)
    requires duration != 0.0
    ensures IsBlankChannel(ChannelOf(BlankTexts, i, duration))
  {
    EmptyLabelIsOther();
    EmptyTextsFail();
    assert IntOr(ParseInt(BlankTexts.samples), SamplesFallback) == 0;
    ZeroRate(duration);
  }

  lemma ZeroRate(duration: real)
    requires duration != 0.0
    ensures Rate(0, duration) == 0.0
  {
    assert 0 as real == 0.0;
  }

  /** A file that ends with its fixed part still lists its signals, every one
      with empty texts and every fallback value. */
  lemma TruncatedFileDefaults(file: seq<byte>, h: HeaderInfo)
    requires |file| <= 256 && ChannelsOf(file, h).Ok?
    ensures forall i :: 0 <= i < |ChannelsOf(file, h).value| ==> IsBlankChannel(ChannelsOf(file, h).value[i])
  {
    var chs := ChannelsOf(file, h).value;
    SeekFailsExactly(h.numChannels);
    forall i | 0 <= i < |chs|
      ensures IsBlankChannel(chs[i])
    {
      TabulateAt(h.numChannels, SignalRecord(file, h), i);
      BlankSignal(file, h, i);
    }
  }

  lemma BlankSignal(file: seq<byte>, h: HeaderInfo, i: nat)
    requires |file| <= 256 && h.numChannels >= 0 && h.recordDuration != 0.0
    ensures IsBlankChannel(SignalRecord(file, h)(i))
  {
    assert Text([]) == "" by {
      assert AsciiDecode([]) == [];
    }
    forall k | 0 <= k < 9
      ensures SignalText(file, k, h.numChannels, i) == ""
    {
      assert FieldStart(k, h.numChannels, i) >= 256;
    }
    assert SignalTexts(file, h.numChannels, i) == BlankTexts;
    BlankTextsGiveFallbacks(i, h.recordDuration);
  }

  // ------------------------------------------------------- annotations

  /** What `read_annotations_simple` reports about the annotation channel. */
  datatype AnnotationInfo = AnnotationInfo(channelIndex: nat, samplesPerRecord: int, recordSizeBytes: int)

  predicate IsAnnotationChannel(c: Channel) {
    Contains(Lower(c.name), "annotation")
  }

  /** Samples per data record, over all channels. */
  function SamplesTotal(chs: seq<Channel>): int {
    if chs == [] then 0 else SamplesTotal(chs[..|chs| - 1]) + chs[|chs| - 1].samplesPerRecord
  }

  /** Two bytes per sample. */
  function RecordSizeBytes(chs: seq<Channel>): int {
    2 * SamplesTotal(chs)
  }

  /** The record size of two channel lists together is the sum of their sizes. */
  lemma {:induction false} RecordSizeAdds(a: seq<Channel>, b: seq<Channel>)
    ensures RecordSizeBytes(a + b) == RecordSizeBytes(a) + RecordSizeBytes(b)
    decreases |b|
  {
    if b == [] {
      assert a + b == a;
    } else {
      assert (a + b)[..|a + b| - 1] == a + b[..|b| - 1];
      RecordSizeAdds(a, b[..|b| - 1]);
    }
  }

  /** Channels with no negative sample counts give a record size that is even and
      at least twice any one channel's samples. */
  lemma {:induction false} RecordSizeBounds(chs: seq<Channel>, i: nat)
    requires forall j :: 0 <= j < |chs| ==> chs[j].samplesPerRecord >= 0
    requires i < |chs|
    ensures RecordSizeBytes(chs) >= 2 * chs[i].samplesPerRecord
    ensures RecordSizeBytes(chs) % 2 == 0
  {
    NonNegativeTotal(chs[..|chs| - 1]);
    if i < |chs| - 1 {
      RecordSizeBounds(chs[..|chs| - 1], i);
    }
  }

  lemma {:induction false} NonNegativeTotal(chs: seq<Channel>)
    requires forall j :: 0 <= j < |chs| ==> chs[j].samplesPerRecord >= 0
    ensures SamplesTotal(chs) >= 0
  {
    if chs != [] {
      NonNegativeTotal(chs[..|chs| - 1]);
    }
  }

  /** The search loop: the first channel whose lower-cased name contains
      'annotation'. */
  method FindAnnotationChannel(chs: seq<Channel>) returns (index: Option<nat>)
    ensures index.None? <==> forall j :: 0 <= j < |chs| ==> !IsAnnotationChannel(chs[j])
    ensures index.Some? ==> index.value < |chs| && IsAnnotationChannel(chs[index.value])
    ensures index.Some? ==> forall j :: 0 <= j < index.value ==> !IsAnnotationChannel(chs[j])
  {
    var i := 0;
    while i < |chs|
      invariant 0 <= i <= |chs|
      invariant forall j :: 0 <= j < i ==> !IsAnnotationChannel(chs[j])
    {
      if IsAnnotationChannel(chs[i]) {
        return Some(i);
      }
      i := i + 1;
    }
    return None;
  }

  /** `read_annotations_simple`: nothing when there is no annotation channel;
      otherwise the seek to the end of the header, which raises when the header size
      is negative, and the channel's numbers. */
  method ReadAnnotationsSimple(chs: seq<Channel>, h: HeaderInfo) returns (r: Result<seq<AnnotationInfo>>)
    ensures (forall j :: 0 <= j < |chs| ==> !IsAnnotationChannel(chs[j])) ==> r == Ok([])
    ensures forall a :: 0 <= a < |chs| && IsAnnotationChannel(chs[a])
                        && (forall j :: 0 <= j < a ==> !IsAnnotationChannel(chs[j])) ==>
      r == if h.headerBytes < 0 then Err(SeekError)
           else Ok([AnnotationInfo(a, chs[a].samplesPerRecord, RecordSizeBytes(chs))])
  {
    var index := FindAnnotationChannel(chs);
    if index.None? {
      return Ok([]);
    }
    var a := index.value;
    if h.headerBytes < 0 {
      return Err(SeekError);
    }
    r := Ok([AnnotationInfo(a, chs[a].samplesPerRecord, RecordSizeBytes(chs))]);
  }
}
