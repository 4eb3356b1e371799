/** The scanner for H.264 byte streams in the format of Annex B of ITU-T H.264:
    it lists the type (low five bits of the header byte) of each NAL unit. */
module AnnexB {

  type byte = n: nat | n < 256

  /** The low five bits: what is left once the three bits above them are taken away. */
  function NalType(header: byte): (t: byte)
    ensures t < 32 && exists high: nat :: high < 8 && header == high * 32 + t
  {
    assert header == header / 32 * 32 + header % 32 && header / 32 < 8;
    header % 32
  }

  predicate LongStart(s: seq<byte>) {
    |s| >= 4 && s[0] == 0 && s[1] == 0 && s[2] == 0 && s[3] == 1
  }

  predicate ShortStart(s: seq<byte>) {
    |s| >= 3 && s[0] == 0 && s[1] == 0 && s[2] == 1
  }

  /** Offsets, counted from `base`, of the header bytes the scanner reports in
      the rest `s` of the stream. */
  function Headers(s: seq<byte>, base: nat): seq<nat> {
    if |s| <= 3 then []
    else if LongStart(s) then if |s| == 4 then [] else [base + 4] + Headers(s[5..], base + 5)
    else if ShortStart(s) then [base + 3] + Headers(s[4..], base + 4)
    else Headers(s[1..], base + 1)
  }

  /** The types the scanner reports in the rest of the stream. */
  function Types(s: seq<byte>): seq<byte> {
    if |s| <= 3 then []
    else if LongStart(s) then if |s| == 4 then [] else [NalType(s[4])] + Types(s[5..])
    else if ShortStart(s) then [NalType(s[3])] + Types(s[4..])
    else Types(s[1..])
  }

  /** Where the scanner goes on after looking at the front of `s`. */
  function StepLength(s: seq<byte>): nat {
    if LongStart(s) then 5 else if ShortStart(s) then 4 else 1
  }

  /** One turn of the scanner at `offset`. */
  lemma TypesUnfold(bytes: seq<byte>, offset: nat)
    requires offset + 3 < |bytes|
    ensures var s := bytes[offset..];
            var next := offset + StepLength(s);
            Types(s) == if StepLength(s) == 1 then Types(bytes[next..])
                        else if next <= |bytes| then [NalType(bytes[next - 1])] + Types(bytes[next..])
                        else []
  {
    var s := bytes[offset..];
    var n := StepLength(s);
    if n <= |s| {
      assert s[n..] == bytes[offset + n..];
    }
  }

  method AnnexbNalTypes(bytes: seq<byte>) returns (types: seq<byte>)
    ensures types == Types(bytes)
  {
    types := [];
    var offset := 0;
    assert bytes[0..] == bytes;
    while offset + 3 < |bytes|
      invariant offset <= |bytes| ==> types + Types(bytes[offset..]) == Types(bytes)
      invariant offset > |bytes| ==> types == Types(bytes)
    {
      TypesUnfold(bytes, offset);
      var startLength;
      if LongStart(bytes[offset..]) {
        startLength := 4;
      } else if ShortStart(bytes[offset..]) {
        startLength := 3;
      } else {
        offset := offset + 1;
        continue;
      }
      var header := offset + startLength;
      if header < |bytes| {
        types := types + [NalType(bytes[header])];
      }
      offset := header + 1;
    }
  }

  // ------------------------------------------------- writing and reading back

  /** A NAL unit and the length of the start code written before it. */
  datatype Unit = Unit(longStart: bool, header: byte, body: seq<byte>)

  ghost predicate NoStartCode(body: seq<byte>) {
    forall i :: 0 <= i < |body| - 2 ==> !(body[i] == 0 && body[i + 1] == 0 && body[i + 2] == 1)
  }

  function StartCode(longStart: bool): seq<byte> {
    if longStart then [0, 0, 0, 1] else [0, 0, 1]
  }

  function Write(units: seq<Unit>): seq<byte> {
    if units == [] then []
    else StartCode(units[0].longStart) + [units[0].header] + (units[0].body + Write(units[1..]))
  }

  function UnitTypes(units: seq<Unit>): seq<byte> {
    if units == [] then [] else [NalType(units[0].header)] + UnitTypes(units[1..])
  }

  /** Scanning a body reports nothing and stops at the next start code, even
      where the body ends in zeros. */
  lemma {:induction false} BodyIsSkipped(body: seq<byte>, rest: seq<byte>)
    requires NoStartCode(body)
    requires rest == [] || (|rest| >= 4 && (LongStart(rest) || ShortStart(rest)))
    ensures Types(body + rest) == Types(rest)
    decreases |body|
  {
    var s := body + rest;
    if body == [] {
      assert s == rest;
    } else if |s| > 3 {
      assert forall i :: 0 <= i < |body| ==> s[i] == body[i];
      assert forall i :: |body| <= i < |s| ==> s[i] == rest[i - |body|];
      assert !ShortStart(s);
      if LongStart(s) {
        assert |body| == 1;
        assert s[5..] == rest[4..];
      } else {
        assert s[1..] == body[1..] + rest;
        BodyIsSkipped(body[1..], rest);
      }
    }
  }

  /** Any list of units without an embedded start code is read back, in order,
      whichever start codes were written. */
  lemma {:induction false} ScanReadsBack(units: seq<Unit>)
    requires forall u :: u in units ==> NoStartCode(u.body)
    ensures Types(Write(units)) == UnitTypes(units)
    decreases |units|
  {
    if units != [] {
      var u, rest := units[0], Write(units[1..]);
      var s := Write(units);
      assert u in units;
      BodyIsSkipped(u.body, rest);
      if u.longStart {
        assert LongStart(s) && s[4] == u.header && s[5..] == u.body + rest;
      } else {
        assert ShortStart(s) && s[3] == u.header && s[4..] == u.body + rest;
      }
      ScanReadsBack(units[1..]);
    }
  }

  // -------------------------------------------------- on every byte sequence

  /** The three bytes 00 00 01 stand right before offset `p`. */
  predicate Behind(bytes: seq<byte>, p: int) {
    3 <= p < |bytes| && bytes[p - 3] == 0 && bytes[p - 2] == 0 && bytes[p - 1] == 1
  }

  lemma HeadersUnfold(s: seq<byte>, base: nat)
    requires |s| > 3 && StepLength(s) <= |s|
    ensures var n := StepLength(s);
            var rest := Headers(s[n..], base + n);
            && Headers(s, base) == (if n == 1 then rest else [base + n - 1] + rest)
            && Types(s) == (if n == 1 then Types(s[n..]) else [NalType(s[n - 1])] + Types(s[n..]))
  {
  }

  ghost predicate TypesMatch(types: seq<byte>, headers: seq<nat>, s: seq<byte>, base: nat) {
    && |types| == |headers|
    && forall k :: 0 <= k < |headers| ==> base <= headers[k] < base + |s| && types[k] == NalType(s[headers[k] - base])
  }

  lemma MatchShifts(types: seq<byte>, headers: seq<nat>, s: seq<byte>, n: nat, base: nat)
    requires n <= |s| && TypesMatch(types, headers, s[n..], base + n)
    ensures TypesMatch(types, headers, s, base)
  {
  }

  lemma MatchGrows(types: seq<byte>, headers: seq<nat>, s: seq<byte>, n: nat, base: nat)
    requires 0 < n <= |s| && TypesMatch(types, headers, s, base)
    ensures TypesMatch([NalType(s[n - 1])] + types, [base + n - 1] + headers, s, base)
  {
  }

  /** The types are those of the reported header offsets. */
  lemma {:induction false} TypesAreHeaders(s: seq<byte>, base: nat)
    ensures TypesMatch(Types(s), Headers(s, base), s, base)
    decreases |s|
  {
    var n := StepLength(s);
    if |s| > 3 && n <= |s| {
      TypesAreHeaders(s[n..], base + n);
      var types, headers := Types(s[n..]), Headers(s[n..], base + n);
      MatchShifts(types, headers, s, n, base);
      MatchGrows(types, headers, s, n, base);
      HeadersUnfold(s, base);
    }
  }

  ghost predicate Sound(headers: seq<nat>, s: seq<byte>, base: nat) {
    && (forall k :: 0 <= k < |headers| ==> Behind(s, headers[k] - base))
    && (forall j, k :: 0 <= j < k < |headers| ==> headers[j] < headers[k])
  }

  lemma SoundShifts(headers: seq<nat>, s: seq<byte>, n: nat, base: nat)
    requires n <= |s| && Sound(headers, s[n..], base + n)
    ensures Sound(headers, s, base)
    ensures forall k :: 0 <= k < |headers| ==> base + n <= headers[k]
  {
    forall k | 0 <= k < |headers| ensures Behind(s, headers[k] - base) && base + n <= headers[k] {
      assert Behind(s[n..], headers[k] - (base + n));
    }
  }

  /** Every reported header stands behind a start code, in increasing order. */
  lemma {:induction false} HeadersAreSound(s: seq<byte>, base: nat)
    ensures Sound(Headers(s, base), s, base)
    decreases |s|
  {
    var n := StepLength(s);
    if |s| > 3 && n <= |s| {
      HeadersAreSound(s[n..], base + n);
      var rest := Headers(s[n..], base + n);
      SoundShifts(rest, s, n, base);
      assert n > 1 ==> Behind(s, n - 1) && Sound([base + n - 1] + rest, s, base);
      HeadersUnfold(s, base);
    }
  }

  /** Every byte behind a start code is reported, unless a reported header byte
      lies inside that start code. */
  lemma {:induction false} HeadersAreComplete(s: seq<byte>, base: nat, p: int)
    requires Behind(s, p)
    ensures exists q :: q in Headers(s, base) && base + p - 3 <= q <= base + p
    decreases |s|
  {
    var n := StepLength(s);
    HeadersUnfold(s, base);
    if n == 1 || p - n >= 3 {
      HeadersAreComplete(s[n..], base + n, p - n);
      var q :| q in Headers(s[n..], base + n) && base + p - 3 <= q <= base + p;
      assert q in Headers(s, base);
    } else {
      assert base + n - 1 in Headers(s, base);
    }
  }
}
