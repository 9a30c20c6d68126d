// The APDU parser of src/ctap/apdu.rs (ISO/IEC 7816-4, section 5.1).

module Apdu {
  import opened Bytes
  import opened Results

  datatype Status = WrongData | WrongLength | InternalException

  datatype Case = Le1 | Lc1Data | Lc1DataLe1 | Lc3Data | Lc3DataLe1 | Lc3DataLe2 | Le3

  datatype ApduType = Instruction | Short(shape: Case) | Extended(shape: Case)

  datatype Header = Header(cla: byte, ins: byte, p1: byte, p2: byte)

  datatype Apdu = Apdu(header: Header, lc: nat, data: ByteString, le: nat, caseType: ApduType)

  function U16(hi: byte, lo: byte): nat { hi * 256 + lo }

  /** The expected length one or two bytes stand for; all zeros mean the maximum. */
  function Le8(b: byte): nat { if b == 0 then 0x100 else b }

  function Le16(hi: byte, lo: byte): nat { if U16(hi, lo) == 0 then 0x10000 else U16(hi, lo) }

  function Parse(frame: ByteString): Result<Apdu, Status> {
    if |frame| < 4 then Err(WrongData)
    else ParseBody(Header(frame[0], frame[1], frame[2], frame[3]), frame[4..])
  }

  function ParseBody(header: Header, payload: ByteString): Result<Apdu, Status> {
    var n := |payload|;
    if n == 0 then Ok(Apdu(header, 0, [], 0, Instruction))
    else if n == 1 then Ok(Apdu(header, 0, [], Le8(payload[0]), Short(Le1)))
    else if payload[0] != 0 && n - 1 == payload[0] then
      Ok(Apdu(header, payload[0], payload[1..], 0, Short(Lc1Data)))
    else if payload[0] != 0 && n - 2 == payload[0] then
      Ok(Apdu(header, payload[0], payload[1..n - 1], Le8(payload[n - 1]), Short(Lc1DataLe1)))
    else if n > 2 then ParseExtended(header, payload)
    else Err(InternalException)
  }

  function ParseExtended(header: Header, payload: ByteString): Result<Apdu, Status>
    requires |payload| > 2
  {
    var n := |payload|;
    var lc := U16(payload[1], payload[2]);
    if n < lc + 3 || n - (lc + 3) > 3 then Err(WrongLength)
    else if payload[0] != 0 then Err(InternalException)
    else
      var data := payload[3..lc + 3];
      match n - (lc + 3)
      case 0 => Ok(Apdu(header, lc, data, 0, Extended(Lc3Data)))
      case 1 => Ok(Apdu(header, lc, data, Le8(payload[n - 1]), Extended(Lc3DataLe1)))
      case 2 => Ok(Apdu(header, lc, data, Le16(payload[n - 2], payload[n - 1]), Extended(Lc3DataLe2)))
      case _ =>
        if payload[n - 3] != 0 then Err(InternalException)
        else Ok(Apdu(header, lc, data, Le16(payload[n - 2], payload[n - 1]), Extended(Le3)))
  }

  // ---------- the encoder ----------

  /** The APDUs a frame can stand for. */
  predicate WellFormed(a: Apdu) {
    && a.lc == |a.data|
    && match a.caseType
       case Instruction => a.lc == 0 && a.le == 0
       case Short(Le1) => a.lc == 0 && 1 <= a.le <= 0x100
       case Short(Lc1Data) => 1 <= a.lc < 0x100 && a.le == 0
       case Short(Lc1DataLe1) => 1 <= a.lc < 0x100 && 1 <= a.le <= 0x100
       case Extended(Lc3Data) => a.lc < 0x10000 && a.le == 0
       case Extended(Lc3DataLe1) => a.lc < 0x10000 && 1 <= a.le <= 0x100
       case Extended(Lc3DataLe2) => a.lc < 0x10000 && 1 <= a.le <= 0x10000
       case Extended(Le3) => a.lc < 0x10000 && 1 <= a.le <= 0x10000
       case _ => false
  }

  function LeByte(le: nat): byte
    requires le <= 0x100
  {
    if le == 0x100 then 0 else le
  }

  function Bytes16(n: nat): ByteString
    requires n <= 0x10000
  {
    if n == 0x10000 then [0, 0] else [n / 256, n % 256]
  }

  function Encode(a: Apdu): ByteString
    requires WellFormed(a)
  {
    [a.header.cla, a.header.ins, a.header.p1, a.header.p2] + EncodeBody(a)
  }

  function EncodeBody(a: Apdu): ByteString
    requires WellFormed(a)
  {
    if a.caseType == Instruction then []
    else if a.caseType == Short(Le1) then [LeByte(a.le)]
    else if a.caseType == Short(Lc1Data) then [a.lc] + a.data
    else if a.caseType == Short(Lc1DataLe1) then [a.lc] + a.data + [LeByte(a.le)]
    else [0] + Bytes16(a.lc) + a.data + EncodeLe(a)
  }

  function EncodeLe(a: Apdu): ByteString
    requires WellFormed(a) && a.caseType.Extended?
  {
    if a.caseType.shape == Lc3Data then []
    else if a.caseType.shape == Lc3DataLe1 then [LeByte(a.le)]
    else if a.caseType.shape == Lc3DataLe2 then Bytes16(a.le)
    else [0] + Bytes16(a.le)
  }

  // ---------- parsing is a bijection onto the accepted frames ----------

  /** Whatever is accepted is well formed, its length byte is honest, and encodes back to the frame. */
  lemma ParseThenEncode(frame: ByteString)
    requires Parse(frame).Ok?
    ensures var a := Parse(frame).value; WellFormed(a) && a.lc == |a.data| && Encode(a) == frame
  {
    assert frame == [frame[0], frame[1], frame[2], frame[3]] + frame[4..];
    BodyThenEncode(Header(frame[0], frame[1], frame[2], frame[3]), frame[4..]);
  }

  lemma BodyThenEncode(header: Header, payload: ByteString)
    requires ParseBody(header, payload).Ok?
    ensures var a := ParseBody(header, payload).value;
      WellFormed(a) && a.header == header && EncodeBody(a) == payload
  {
    var n := |payload|;
    var a := ParseBody(header, payload).value;
    if a.caseType.Extended? {
      ExtendedThenEncode(header, payload);
    } else if n == 1 {
      assert payload == [payload[0]];
    } else if n > 1 {
      assert payload == [payload[0]] + payload[1..n - 1] + [payload[n - 1]];
      assert payload == [payload[0]] + payload[1..];
    }
  }

  lemma ExtendedThenEncode(header: Header, payload: ByteString)
    requires |payload| > 2 && ParseExtended(header, payload).Ok?
    ensures var a := ParseExtended(header, payload).value;
      WellFormed(a) && a.header == header && EncodeBody(a) == payload
  {
    hide ParseExtended, EncodeBody, EncodeLe, Bytes16, WellFormed;
    var a := ParseExtended(header, payload).value;
    ExtendedFront(header, payload);
    ExtendedLe(header, payload);
    EncodeExtended(a);
    ThreeParts(payload, 3, a.lc + 3);
  }

  lemma EncodeExtended(a: Apdu)
    requires WellFormed(a) && a.caseType.Extended?
    ensures a.lc <= 0x10000 && EncodeBody(a) == [0] + Bytes16(a.lc) + a.data + EncodeLe(a)
  {
    hide Bytes16, EncodeLe;
  }

  lemma ExtendedFront(header: Header, payload: ByteString)
    requires |payload| > 2 && ParseExtended(header, payload).Ok?
    ensures var a := ParseExtended(header, payload).value;
      && a.header == header && a.lc + 3 <= |payload| && a.lc < 0x10000 && a.data == payload[3..a.lc + 3]
      && a.lc == |a.data| && payload[..3] == [0] + Bytes16(a.lc)
  {
    hide Bytes16;
    Bytes16Back(payload[1], payload[2]);
    assert payload[..3] == [payload[0], payload[1], payload[2]];
  }

  lemma Bytes16Back(hi: byte, lo: byte)
    ensures U16(hi, lo) < 0x10000 && Bytes16(U16(hi, lo)) == [hi, lo]
  {
  }

  lemma ThreeParts(s: ByteString, i: nat, j: nat)
    requires i <= j <= |s|
    ensures s == s[..i] + s[i..j] + s[j..]
  {
  }

  lemma Le8Back(b: byte)
    ensures 1 <= Le8(b) <= 0x100 && LeByte(Le8(b)) == b
  {
  }

  lemma Le16Back(hi: byte, lo: byte)
    ensures 1 <= Le16(hi, lo) <= 0x10000 && Bytes16(Le16(hi, lo)) == [hi, lo]
  {
    Bytes16Back(hi, lo);
  }

  /** What follows the data says the expected length. */
  lemma ExtendedLe(header: Header, payload: ByteString)
    requires |payload| > 2 && ParseExtended(header, payload).Ok?
    ensures var a := ParseExtended(header, payload).value;
      WellFormed(a) && a.caseType.Extended? && a.lc + 3 <= |payload| && EncodeLe(a) == payload[a.lc + 3..]
  {
    hide Bytes16, Le8, Le16, LeByte;
    var n, lc := |payload|, U16(payload[1], payload[2]);
    Bytes16Back(payload[1], payload[2]);
    Le8Back(payload[n - 1]);
    Le16Back(payload[n - 2], payload[n - 1]);
    LastBytes(payload, lc + 3);
  }

  lemma LastBytes(s: ByteString, i: nat)
    requires i <= |s|
    ensures var n := |s|;
      && (n == i ==> s[i..] == [])
      && (n == i + 1 ==> s[i..] == [s[n - 1]])
      && (n == i + 2 ==> s[i..] == [s[n - 2], s[n - 1]])
      && (n == i + 3 ==> s[i..] == [s[n - 3]] + [s[n - 2], s[n - 1]])
  {
  }

  /** Every encoding of a well-formed APDU is accepted and read back as it was. */
  lemma EncodeThenParse(a: Apdu)
    requires WellFormed(a)
    ensures Parse(Encode(a)) == Ok(a)
  {
    var frame := Encode(a);
    assert frame[4..] == EncodeBody(a);
    if a.caseType.Extended? {
      ExtendedRoundTrip(a);
    } else {
      ShortRoundTrip(a);
    }
  }

  lemma ShortRoundTrip(a: Apdu)
    requires WellFormed(a) && !a.caseType.Extended?
    ensures ParseBody(a.header, EncodeBody(a)) == Ok(a)
  {
    var payload := EncodeBody(a);
    if a.lc > 0 {
      assert payload[0] == a.lc;
      assert payload[1..a.lc + 1] == a.data;
      assert a.le == 0 ==> payload[1..] == a.data;
    }
  }

  lemma ExtendedParts(a: Apdu)
    requires WellFormed(a) && a.caseType.Extended?
    ensures var payload := EncodeBody(a);
      && |payload| >= a.lc + 3 && payload[0] == 0 && U16(payload[1], payload[2]) == a.lc
      && payload[3..a.lc + 3] == a.data && payload[a.lc + 3..] == EncodeLe(a)
  {
    var payload := EncodeBody(a);
    var front := [0] + Bytes16(a.lc);
    assert payload == front + (a.data + EncodeLe(a));
    assert payload[0] == 0 && payload[1] == Bytes16(a.lc)[0] && payload[2] == Bytes16(a.lc)[1];
    assert payload[3..] == a.data + EncodeLe(a);
    assert payload[3..a.lc + 3] == payload[3..][..a.lc] && payload[a.lc + 3..] == payload[3..][a.lc..];
    hide EncodeBody, EncodeLe;
  }

  lemma ExtendedRoundTrip(a: Apdu)
    requires WellFormed(a) && a.caseType.Extended?
    ensures ParseBody(a.header, EncodeBody(a)) == Ok(a)
  {
    ExtendedParts(a);
    var payload := EncodeBody(a);
    hide EncodeBody;
    var le := EncodeLe(a);
    assert |payload| == a.lc + 3 + |le|;
    var n := |payload|;
    assert le != [] ==> payload[n - 1] == le[|le| - 1];
    assert |le| >= 2 ==> payload[n - 2] == le[|le| - 2];
    assert |le| >= 3 ==> payload[n - 3] == le[|le| - 3];
  }

  /** So no two APDUs share a frame. */
  lemma EncodeIsInjective(a: Apdu, b: Apdu)
    requires WellFormed(a) && WellFormed(b) && Encode(a) == Encode(b)
    ensures a == b
  {
    EncodeThenParse(a);
    EncodeThenParse(b);
  }

  /** What a frame that is not accepted is told: no header, a length that fits nothing, or anything else. */
  lemma RefusedAs(frame: ByteString)
    ensures var n := |frame| - 4; var p := if n >= 0 then frame[4..] else [];
      var short := n >= 2 && p[0] != 0 && (n - 1 == p[0] || n - 2 == p[0]);
      var long := n > 2 && 0 <= n - 3 - U16(p[1], p[2]) <= 3;
      && (Parse(frame) == Err(WrongData) <==> n < 0)
      && (Parse(frame) == Err(WrongLength) <==> n > 2 && !short && !long)
      && (Parse(frame) == Err(InternalException) <==>
            || (n == 2 && !short)
            || (long && !short && (p[0] != 0 || (n - 3 - U16(p[1], p[2]) == 3 && p[n - 3] != 0))))
  {
  }

  // ---------- the standard's commands ----------

  /** A command as ISO/IEC 7816-4 has it: data, an expected length, zero for none, and the form. */
  datatype Command = Command(header: Header, data: ByteString, ne: nat, extended: bool)

  predicate Conforms(c: Command) {
    if c.extended then |c.data| < 0x10000 && c.ne <= 0x10000 && (c.data != [] || c.ne > 0)
    else |c.data| < 0x100 && c.ne <= 0x100
  }

  /** Section 5.1: cases 1, 2S, 3S, 4S, and 2E, 3E, 4E, whose length fields open with a zero byte. */
  function Frame(c: Command): ByteString
    requires Conforms(c)
  {
    [c.header.cla, c.header.ins, c.header.p1, c.header.p2] + LcField(c) + c.data + LeField(c)
  }

  function LcField(c: Command): ByteString
    requires Conforms(c)
  {
    if c.data == [] then [] else if c.extended then [0] + BigEndian(|c.data|) else [|c.data|]
  }

  /** The maximum is written as zeros; the opening zero byte comes once, with the first length. */
  function LeField(c: Command): ByteString
    requires Conforms(c)
  {
    if c.ne == 0 then []
    else if !c.extended then [c.ne % 0x100]
    else (if c.data == [] then [0] else []) + BigEndian(c.ne % 0x10000)
  }

  function BigEndian(n: nat): ByteString
    requires n < 0x10000
  {
    [n / 0x100, n % 0x100]
  }

  /** Case 2E: an extended expected length and no data. */
  predicate IsCase2E(c: Command) { c.extended && c.data == [] }

  /** The parser sees the command that was framed. */
  predicate ReadAsMeant(c: Command)
    requires Conforms(c)
  {
    && Parse(Frame(c)).Ok?
    && var a := Parse(Frame(c)).value;
       a.header == c.header && a.lc == |c.data| && a.data == c.data && a.le == c.ne
  }

  function AsApdu(c: Command): Apdu
    requires Conforms(c) && !IsCase2E(c)
  {
    var shape :=
      if c.extended then Extended(if c.ne == 0 then Lc3Data else Lc3DataLe2)
      else if c.data == [] then (if c.ne == 0 then Instruction else Short(Le1))
      else Short(if c.ne == 0 then Lc1Data else Lc1DataLe1);
    Apdu(c.header, |c.data|, c.data, c.ne, shape)
  }

  lemma FrameIsEncoding(c: Command)
    requires Conforms(c) && !IsCase2E(c)
    ensures WellFormed(AsApdu(c)) && Encode(AsApdu(c)) == Frame(c)
  {
    hide BigEndian, Bytes16;
    if c.extended {
      SameBytes(|c.data|);
      SameBytes(c.ne);
    }
  }

  lemma SameBytes(n: nat)
    requires n <= 0x10000
    ensures BigEndian(n % 0x10000) == Bytes16(n)
  {
  }

  /**
   * Case 2E is taken for a data length. It is an error unless both length bytes are zero, that is
   * for the maximum, and then the expected length is lost.
   */
  lemma Case2EIsMisread(c: Command)
    requires Conforms(c) && IsCase2E(c)
    ensures Parse(Frame(c)) ==
      if c.ne == 0x10000 then Ok(Apdu(c.header, 0, [], 0, Extended(Lc3Data))) else Err(WrongLength)
  {
    var hi, lo := c.ne % 0x10000 / 0x100, c.ne % 0x100;
    assert Frame(c) == [c.header.cla, c.header.ins, c.header.p1, c.header.p2, 0, hi, lo];
    var payload: ByteString := [0, hi, lo];
    assert Frame(c)[4..] == payload;
    assert Parse(Frame(c)) == ParseExtended(c.header, payload);
    assert U16(hi, lo) == c.ne % 0x10000;
    assert payload[3..3] == [];
  }

  /** A frame of the standard is read as meant exactly when it is not case 2E. */
  lemma ReadAsMeantIff(c: Command)
    requires Conforms(c)
    ensures ReadAsMeant(c) <==> !IsCase2E(c)
  {
    hide Parse, Frame, Encode;
    if IsCase2E(c) {
      Case2EIsMisread(c);
    } else {
      FrameIsEncoding(c);
      EncodeThenParse(AsApdu(c));
    }
  }
}
