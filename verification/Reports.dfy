/** The report builders of src/protocol.rs and the decoders that read them back. */
module Reports {
  import opened Base

  const CMD_GET_DONGLE_STATUS: Byte := 0x07
  const CMD_SYSPARAM: Byte := 0x0B
  const DONGLE_REPORT: Byte := 0x13
  const CABLE_REPORT: Byte := 0x09

  function Low(x: nat): Byte {
    x % 256
  }

  // ---------------------------------------------------------------- the payload

  /** The wall clock as the payload needs it; the year is the calendar's signed 32-bit one. */
  datatype Wall = Wall(year: int, month: Byte, day: Byte, hour: Byte, minute: Byte, second: Byte, weekday: Byte)

  /** `now.year() as u16`. */
  function Year16(wall: Wall): nat {
    wall.year % 65_536
  }

  method BuildSysparamPayload(volume: Byte, wall: Wall) returns (payload: array<Byte>)
    ensures fresh(payload) && payload[..] == Payload(volume, wall)
    ensures payload.Length == 14 && payload[0] == volume
    ensures payload[3] + 256 * (payload[4] as int) == wall.year % 65_536
    ensures payload[5] == wall.month && payload[6] == wall.day && payload[7] == wall.hour
    ensures payload[8] == wall.minute && payload[9] == wall.second && payload[10] == wall.weekday
    ensures payload[1] == payload[2] == payload[11] == payload[12] == payload[13] == 0
  {
    var year := Year16(wall);
    payload := new Byte[14](_ => 0);
    payload[0] := volume;
    payload[3] := year % 256;
    payload[4] := year / 256;
    ghost var head := payload[..5];
    assert head == [volume, 0, 0, year % 256, year / 256];
    FillDate(payload, wall);
    assert payload[..] == head + [wall.month, wall.day, wall.hour, wall.minute, wall.second, wall.weekday] + [0, 0, 0];
  }

  method FillDate(payload: array<Byte>, wall: Wall)
    requires payload.Length == 14
    modifies payload
    ensures payload[..] == old(payload[..5])
      + [wall.month, wall.day, wall.hour, wall.minute, wall.second, wall.weekday] + old(payload[11..])
  {
    payload[5] := wall.month;
    payload[6] := wall.day;
    payload[7] := wall.hour;
    payload[8] := wall.minute;
    payload[9] := wall.second;
    payload[10] := wall.weekday;
  }

  function Payload(volume: Byte, wall: Wall): (p: Bytes)
    ensures |p| == 14
  {
    [volume, 0, 0, Year16(wall) % 256, Year16(wall) / 256, wall.month, wall.day, wall.hour, wall.minute,
     wall.second, wall.weekday, 0, 0, 0]
  }

  /** What a receiver reads from a payload. */
  function ReadPayload(p: Bytes): (Byte, Wall)
    requires |p| == 14
  {
    var (low: int, high: int) := (p[3], p[4]);
    (p[0], Wall(low + 256 * high, p[5], p[6], p[7], p[8], p[9], p[10]))
  }

  /** The date and volume survive exactly for the years a 16-bit field can hold. */
  lemma PayloadRoundTrip(volume: Byte, wall: Wall)
    ensures ReadPayload(Payload(volume, wall)) == (volume, wall) <==> 0 <= wall.year < 65_536
  {
    var y: int := Year16(wall);
    assert y % 256 + 256 * (y / 256) == y;
  }

  // ---------------------------------------------------------------- the checksum

  function Sum(bytes: Bytes): nat {
    if bytes == [] then 0 else Sum(bytes[..|bytes| - 1]) + bytes[|bytes| - 1]
  }

  lemma {:induction false} SumBounded(bytes: Bytes)
    ensures Sum(bytes) <= 255 * |bytes|
  {
    if bytes != [] { SumBounded(bytes[..|bytes| - 1]); }
  }

  lemma {:induction false} SumConcat(a: Bytes, b: Bytes)
    ensures Sum(a + b) == Sum(a) + Sum(b)
    decreases |b|
  {
    if b == [] {
      assert a + b == a;
    } else {
      assert (a + b)[..|a + b| - 1] == a + b[..|b| - 1];
      SumConcat(a, b[..|b| - 1]);
    }
  }

  lemma SumUpdate(bytes: Bytes, i: nat, v: Byte)
    requires i < |bytes|
    ensures Sum(bytes[i := v]) == Sum(bytes) - bytes[i] + v
  {
    var before, after := bytes[..i], bytes[i + 1..];
    assert bytes == before + [bytes[i]] + after && bytes[i := v] == before + [v] + after;
    SumConcat(before + [bytes[i]], after);
    SumConcat(before + [v], after);
    SumConcat(before, [bytes[i]]);
    SumConcat(before, [v]);
    SumOne(bytes[i]);
    SumOne(v);
  }

  lemma SumOne(v: Byte)
    ensures Sum([v]) == v
  {
    assert [v][..0] == [];
  }

  /** `crc`: a running sum that wraps at 16 bits, cut to a byte.  The sum of 19 bytes never gets that far. */
  method Crc(packet: Bytes) returns (crc: Byte)
    requires |packet| == 20
    ensures crc == Low(Sum(packet[..19]))
    ensures forall i :: 0 <= i <= 19 ==> Sum(packet[..i]) < 65_536
  {
    var sum: nat := 0;
    for i := 0 to 19
      invariant sum == Sum(packet[..i])
      invariant forall k :: 0 <= k <= i ==> Sum(packet[..k]) <= 255 * k
    {
      assert packet[..i + 1][..i] == packet[..i];
      sum := (sum + packet[i]) % 65_536;
    }
    crc := sum % 256;
  }

  // ---------------------------------------------------------------- output reports

  predicate ChecksumOk(packet: Bytes)
    requires |packet| == 20
  {
    packet[19] == Low(Sum(packet[..19]))
  }

  function Padded(bytes: Bytes, size: nat): (r: Bytes)
    ensures |r| == size
  {
    if size <= |bytes| then bytes[..size] else bytes + seq(size - |bytes|, _ => 0)
  }

  /** Everything but the checksum. */
  function OutputBody(reportId: Byte, cmd: Byte, payload: Bytes): (r: Bytes)
    ensures |r| == 19
  {
    [reportId, cmd, 1, 0, |payload| % 16] + Padded(payload, 14)
  }

  function OutputReport(reportId: Byte, cmd: Byte, payload: Bytes): (r: Bytes)
    ensures |r| == 20
  {
    var body := OutputBody(reportId, cmd, payload);
    body + [Low(Sum(body))]
  }

  /** An output report byte by byte. */
  lemma OutputBytes(reportId: Byte, cmd: Byte, payload: Bytes)
    ensures
      var pkt := OutputReport(reportId, cmd, payload);
      && pkt[0] == reportId && pkt[1] == cmd && pkt[2] == 1 && pkt[3] == 0
      && pkt[4] == |payload| % 16 && pkt[19] == Sum(pkt[..19]) % 256
      && forall i :: 0 <= i < 14 ==> pkt[5 + i] == if i < |payload| then payload[i] else 0
  {
    var pkt := OutputReport(reportId, cmd, payload);
    assert pkt[..19] == OutputBody(reportId, cmd, payload);
  }

  method BuildOutputReport(reportId: Byte, cmd: Byte, payload: Bytes) returns (pkt: array<Byte>)
    ensures fresh(pkt) && pkt[..] == OutputReport(reportId, cmd, payload)
    ensures pkt.Length == 20 && pkt[0] == reportId && pkt[1] == cmd && pkt[2] == 1 && pkt[3] == 0
    ensures pkt[4] == |payload| % 16 && pkt[19] == Sum(pkt[..19]) % 256
    ensures forall i :: 0 <= i < 14 ==> pkt[5 + i] == if i < |payload| then payload[i] else 0
  {
    OutputBytes(reportId, cmd, payload);
    pkt := new Byte[20](_ => 0);
    FillBody(pkt, reportId, cmd, payload);
    hide Sum, OutputBody;
    var crc := Crc(pkt[..]);
    assert pkt[..][..19] == pkt[..19];
    pkt[19] := crc;
    assert pkt[..] == pkt[..19] + [crc];
  }

  /** Everything but the checksum, into an empty packet. */
  method FillBody(pkt: array<Byte>, reportId: Byte, cmd: Byte, payload: Bytes)
    requires pkt.Length == 20 && forall i :: 0 <= i < 20 ==> pkt[i] == 0
    modifies pkt
    ensures pkt[..19] == OutputBody(reportId, cmd, payload)
  {
    hide OutputBody;
    FillHead(pkt, reportId, cmd, |payload|);
    ghost var blank := pkt[..];
    BodyFilled(blank, reportId, cmd, payload);
    var n := Min(|payload|, 14);
    CopyInto(pkt, 5, payload[..n]);
    assert pkt[..19] == pkt[..][..19];
  }

  method FillHead(pkt: array<Byte>, reportId: Byte, cmd: Byte, length: nat)
    requires pkt.Length == 20
    modifies pkt
    ensures pkt[..] == [reportId, cmd, 1, 0, length % 16] + old(pkt[5..])
  {
    pkt[0] := reportId;
    pkt[1] := cmd;
    pkt[2] := 0x01;
    pkt[3] := 0x00;
    pkt[4] := length % 256 % 16;
    assert pkt[..] == pkt[..5] + pkt[5..];
  }

  lemma BodyFilled(blank: Bytes, reportId: Byte, cmd: Byte, payload: Bytes)
    requires |blank| == 20 && blank[0] == reportId && blank[1] == cmd && blank[2] == 1 && blank[3] == 0
    requires blank[4] == |payload| % 16 && forall i :: 5 <= i < 20 ==> blank[i] == 0
    ensures
      var n := Min(|payload|, 14);
      (blank[..5] + payload[..n] + blank[5 + n..])[..19] == OutputBody(reportId, cmd, payload)
  {
    var n := Min(|payload|, 14);
    assert blank[..5] == [reportId, cmd, 1, 0, |payload| % 16];
    assert payload[..n] + blank[5 + n..19] == Padded(payload, 14);
    hide Padded;
  }

  datatype Message = Message(cmd: Byte, payload: Bytes)

  /** What a receiver accepts: the checksum holds and the announced length fits. */
  function DecodeOutput(packet: Bytes): Option<Message>
    requires |packet| == 20
  {
    if ChecksumOk(packet) && packet[4] % 16 <= 14
    then Some(Message(packet[1], packet[5..5 + packet[4] % 16]))
    else None
  }

  lemma OutputReportFields(reportId: Byte, cmd: Byte, payload: Bytes)
    ensures
      var packet := OutputReport(reportId, cmd, payload);
      && ChecksumOk(packet) && packet[1] == cmd && packet[4] == |payload| % 16
      && packet[5..19] == Padded(payload, 14)
  {
    hide Sum, Padded;
    var packet := OutputReport(reportId, cmd, payload);
    assert packet[..19] == OutputBody(reportId, cmd, payload);
  }

  /** An output report carries its command and payload exactly when the payload has at most 14 bytes. */
  lemma OutputRoundTrip(reportId: Byte, cmd: Byte, payload: Bytes)
    ensures DecodeOutput(OutputReport(reportId, cmd, payload)) == Some(Message(cmd, payload)) <==> |payload| <= 14
  {
    hide OutputReport, ChecksumOk;
    var packet := OutputReport(reportId, cmd, payload);
    OutputReportFields(reportId, cmd, payload);
    var n := |payload| % 16;
    if |payload| <= 14 {
      assert packet[5..5 + n] == packet[5..19][..n] == payload;
    } else if n <= 14 {
      assert |DecodeOutput(packet).value.payload| == n < |payload|;
    }
  }

  /** Changing any one byte of a packet whose checksum holds, the checksum included, is noticed. */
  lemma OneChangedByteIsNoticed(packet: Bytes, i: nat, v: Byte)
    requires |packet| == 20 && ChecksumOk(packet) && i < 20
    ensures ChecksumOk(packet[i := v]) <==> v == packet[i]
  {
    var changed := packet[i := v];
    if i < 19 {
      assert changed[..19] == packet[..19][i := v];
      SumUpdate(packet[..19], i, v);
      SumUpdate(packet[..19], i, 0);
      SameLowByte(Sum(packet[..19]), packet[i], v);
    } else {
      assert changed[..19] == packet[..19];
    }
  }

  lemma SameLowByte(sum: nat, was: Byte, put: Byte)
    requires was <= sum
    ensures Low(sum - was + put) == Low(sum) <==> put == was
  {
    var (a: int, b: int) := (was, put);
    var d := b - a;
    if (sum + d) % 256 == sum % 256 {
      assert (sum + d) - sum == 256 * ((sum + d) / 256 - sum / 256);
    }
  }

  // ---------------------------------------------------------------- feature reports

  function FeatureReport(reportId: Byte, cmd: Byte, payload: Bytes): (r: Bytes)
    ensures |r| == 520
  {
    [reportId, cmd, 0, 0, 1, 0, Low(|payload|), Low(|payload| / 256)] + Padded(payload, 512)
  }

  /** A feature report byte by byte. */
  lemma FeatureBytes(reportId: Byte, cmd: Byte, payload: Bytes)
    ensures
      var buf := FeatureReport(reportId, cmd, payload);
      && buf[0] == reportId && buf[1] == cmd && buf[2] == buf[3] == buf[5] == 0 && buf[4] == 1
      && buf[6] == |payload| % 256 && buf[7] == |payload| / 256 % 256
      && forall i :: 0 <= i < 512 ==> buf[8 + i] == if i < |payload| then payload[i] else 0
  {
  }

  method BuildFeatureReport(reportId: Byte, cmd: Byte, payload: Bytes) returns (buf: array<Byte>)
    ensures fresh(buf) && buf[..] == FeatureReport(reportId, cmd, payload)
    ensures buf.Length == 520 && buf[0] == reportId && buf[1] == cmd
    ensures buf[2] == buf[3] == buf[5] == 0 && buf[4] == 1
    ensures buf[6] == |payload| % 256 && buf[7] == |payload| / 256 % 256
    ensures forall i :: 0 <= i < 512 ==> buf[8 + i] == if i < |payload| then payload[i] else 0
  {
    FeatureBytes(reportId, cmd, payload);
    hide FeatureReport;
    buf := new Byte[520](_ => 0);
    FillFeatureHead(buf, reportId, cmd, |payload|);
    ghost var blank := buf[..];
    FeatureFilled(blank, reportId, cmd, payload);
    CopyInto(buf, 8, payload[..Min(|payload|, 512)]);
    assert buf[..] == FeatureReport(reportId, cmd, payload);
  }

  method FillFeatureHead(buf: array<Byte>, reportId: Byte, cmd: Byte, length: nat)
    requires buf.Length == 520
    modifies buf
    ensures buf[..] == [reportId, cmd, 0, 0, 1, 0, length % 256, length / 256 % 256] + old(buf[8..])
  {
    buf[0] := reportId;
    buf[1] := cmd;
    buf[2] := 0x00;
    buf[3] := 0x00;
    buf[4] := 0x01;
    buf[5] := 0x00;
    buf[6] := length % 256;
    buf[7] := length / 256 % 256;
    assert buf[..] == buf[..8] + buf[8..];
  }

  lemma FeatureFilled(blank: Bytes, reportId: Byte, cmd: Byte, payload: Bytes)
    requires |blank| == 520 && forall i :: 8 <= i < 520 ==> blank[i] == 0
    requires blank[..8] == [reportId, cmd, 0, 0, 1, 0, |payload| % 256, |payload| / 256 % 256]
    ensures
      var n := Min(|payload|, 512);
      blank[..8] + payload[..n] + blank[8 + n..] == FeatureReport(reportId, cmd, payload)
  {
    var n := Min(|payload|, 512);
    assert payload[..n] + blank[8 + n..] == Padded(payload, 512);
    hide Padded;
  }

  function DecodeFeature(buf: Bytes): Option<Message>
    requires |buf| == 520
  {
    var (low: int, high: int) := (buf[6], buf[7]);
    var len := low + 256 * high;
    if len <= 512 then Some(Message(buf[1], buf[8..8 + len])) else None
  }

  lemma FeatureRoundTrip(reportId: Byte, cmd: Byte, payload: Bytes)
    ensures DecodeFeature(FeatureReport(reportId, cmd, payload)) == Some(Message(cmd, payload)) <==> |payload| <= 512
  {
    var buf := FeatureReport(reportId, cmd, payload);
    var n := |payload|;
    assert buf[8..] == Padded(payload, 512);
    if n <= 512 {
      assert n % 256 + 256 * (n / 256 % 256) == n;
      assert buf[8..8 + n] == payload;
    }
  }

  lemma SumOfNineteen(b: Bytes)
    requires |b| == 19
    ensures Sum(b) ==
      (b[0] as int) + b[1] + b[2] + b[3] + b[4] + b[5] + b[6] + b[7] + b[8] + b[9] + b[10] + b[11] + b[12] + b[13]
      + b[14] + b[15] + b[16] + b[17] + b[18]
  {
    forall k | 0 <= k < 19 ensures Sum(b[..k + 1]) == Sum(b[..k]) + b[k] {
      assert b[..k + 1][..k] == b[..k];
    }
    assert b[..19] == b;
  }

  lemma YearBytes(year: int)
    ensures year % 65_536 % 256 == year % 256 && year % 65_536 / 256 == year / 256 % 256
  {
    assert year == 65_536 * (year / 65_536) + year % 65_536;
    assert year / 256 == 256 * (year / 65_536) + year % 65_536 / 256;
  }

  /** The fourteen bytes of a sync; a year outside the 16-bit range is cut. */
  function SyncBytes(volume: Byte, wall: Wall): Bytes {
    [volume, 0, 0, wall.year % 256, wall.year / 256 % 256, wall.month, wall.day, wall.hour, wall.minute, wall.second,
     wall.weekday, 0, 0, 0]
  }

  /** A sync on the wire of either transport, byte by byte and with its checksum. */
  lemma SyncOnTheWire(volume: Byte, wall: Wall)
    ensures
      var payload := Payload(volume, wall);
      var sum: int := 45 + volume + wall.year % 256 + wall.year / 256 % 256
        + wall.month + wall.day + wall.hour + wall.minute + wall.second + wall.weekday;
      && OutputReport(DONGLE_REPORT, CMD_SYSPARAM, payload) ==
           [0x13, 0x0B, 1, 0, 14] + SyncBytes(volume, wall) + [sum % 256]
      && FeatureReport(CABLE_REPORT, CMD_SYSPARAM, payload) ==
           [0x09, 0x0B, 0, 0, 1, 0, 14, 0] + SyncBytes(volume, wall) + seq(498, _ => 0)
  {
    YearBytes(wall.year);
    assert Payload(volume, wall) == SyncBytes(volume, wall);
    SumOfNineteen(OutputBody(DONGLE_REPORT, CMD_SYSPARAM, Payload(volume, wall)));
    hide Sum;
  }

  /** A link query on the wire. */
  lemma QueryOnTheWire()
    ensures
      OutputReport(DONGLE_REPORT, CMD_GET_DONGLE_STATUS, []) == [0x13, 0x07, 1, 0, 0] + seq(14, _ => 0) + [27]
  {
    SumOfNineteen(OutputBody(DONGLE_REPORT, CMD_GET_DONGLE_STATUS, []));
    hide Sum;
  }

  /** Both transports carry the same sync: a receiver of either reads the same volume and date. */
  lemma TransportsAgree(volume: Byte, wall: Wall)
    requires 0 <= wall.year < 65_536
    ensures
      var payload := Payload(volume, wall);
      var wireless := DecodeOutput(OutputReport(DONGLE_REPORT, CMD_SYSPARAM, payload));
      var cable := DecodeFeature(FeatureReport(CABLE_REPORT, CMD_SYSPARAM, payload));
      && wireless == cable == Some(Message(CMD_SYSPARAM, payload))
      && ReadPayload(wireless.value.payload) == (volume, wall)
  {
    var payload := Payload(volume, wall);
    OutputRoundTrip(DONGLE_REPORT, CMD_SYSPARAM, payload);
    FeatureRoundTrip(CABLE_REPORT, CMD_SYSPARAM, payload);
    PayloadRoundTrip(volume, wall);
    hide OutputReport, FeatureReport, DecodeOutput, DecodeFeature, ReadPayload, Payload;
  }
}
