/** The signature section of a version 4 TDX quote, with nested certification data of
    type 6 (Appendix A of Intel's TDX DCAP Quote Generation/Verification Library
    specification), and the DER values of certificate extensions. */
module QuoteSignature {
  import opened LogNames
  import opened StoreTypes

  datatype CertDataType =
    | PpidPlaintext | PpidRsa2048 | PpidRsa3072 | PckLeafCert | PckCertChain | QeReportCertData | PlatformManifest

  function FromU16(value: nat): Option<CertDataType> {
    match value
    case 1 => Some(PpidPlaintext)
    case 2 => Some(PpidRsa2048)
    case 3 => Some(PpidRsa3072)
    case 4 => Some(PckLeafCert)
    case 5 => Some(PckCertChain)
    case 6 => Some(QeReportCertData)
    case 7 => Some(PlatformManifest)
    case _ => None
  }

  function OrChain(t: Option<CertDataType>): CertDataType {
    if t.Some? then t.value else PckCertChain
  }

  datatype CertChain<+C> = CertChain(dataType: CertDataType, certs: seq<C>)

  datatype QuoteSignature<+C> = QuoteSignature(
    signature: Bytes,
    attestPubKey: Bytes,
    certDataType: Option<CertDataType>,
    certChain: Option<CertChain<C>>,
    certDataSize: nat)

  datatype Result<+T> = Ok(value: T) | TooShort | CertificateError

  /** `parse_pem_chain`: UTF-8, PEM (section 5 of RFC 7468), base64 and X.509, in other
      libraries' hands. */
  type PemStage<!C> = (CertDataType, Bytes) -> Result<CertChain<C>>

  const REPORT: nat := 384
  const SIGNATURE: nat := 64
  const KEY: nat := 64
  const HEADER: nat := 134

  function Le16(b: Bytes, pos: nat): nat
    requires pos + 2 <= |b|
  {
    b[pos] as nat + 0x100 * (b[pos + 1] as nat)
  }

  function Le32(b: Bytes, pos: nat): nat
    requires pos + 4 <= |b|
  {
    b[pos] as nat + 0x100 * (b[pos + 1] as nat) + 0x1_0000 * (b[pos + 2] as nat) + 0x100_0000 * (b[pos + 3] as nat)
  }

  /** The type code and the payload nested in type 6 data. */
  function Nested(data: Bytes): Option<(nat, Bytes)> {
    if |data| < REPORT + SIGNATURE + 2 then None else
      var pos := REPORT + SIGNATURE + 2 + Le16(data, REPORT + SIGNATURE);
      if |data| < pos + 6 then None else
        var size := Le32(data, pos + 2);
        if |data| < pos + 6 + size then None
        else Some((Le16(data, pos), data[pos + 6..pos + 6 + size]))
  }

  function ParseQeReport<C>(pem: PemStage<C>, data: Bytes): Result<CertChain<C>> {
    match Nested(data)
    case None => CertificateError
    case Some((code, payload)) => pem(OrChain(FromU16(code)), payload)
  }

  function ParseCertData<C>(pem: PemStage<C>, dataType: CertDataType, data: Bytes): Result<CertChain<C>> {
    match dataType
    case PckCertChain => pem(dataType, data)
    case PckLeafCert => pem(dataType, data)
    case QeReportCertData => ParseQeReport(pem, data)
    case _ => Ok(CertChain(dataType, []))
  }

  /** `parse_quote_signature`, on any bytes and any offset. */
  function Parse<C>(pem: PemStage<C>, quote: Bytes, offset: nat): Result<QuoteSignature<C>> {
    if |quote| < offset + 4 then TooShort else
      var size := Le32(quote, offset);
      if |quote| < offset + 4 + size then TooShort else
        var content := quote[offset + 4..offset + 4 + size];
        if |content| < HEADER then TooShort else
          var certType := FromU16(Le16(content, 128));
          var certSize := Le32(content, 130);
          var chain :=
            if |content| >= HEADER + certSize && certSize > 0 then
              match ParseCertData(pem, OrChain(certType), content[HEADER..HEADER + certSize])
              case Ok(c) => Some(c)
              case _ => None
            else None;
          Ok(QuoteSignature(content[..SIGNATURE], content[SIGNATURE..SIGNATURE + KEY], certType, chain, certSize))
  }

  /** The seven type codes; no other number is one. */
  lemma {:induction false} CodesExactly(value: nat)
    ensures FromU16(value).Some? <==> 1 <= value <= 7
    ensures forall k :: 0 <= k < 7 && value == k + 1 ==>
              FromU16(value) == Some([ PpidPlaintext, PpidRsa2048, PpidRsa3072, PckLeafCert, PckCertChain,
                                       QeReportCertData, PlatformManifest ][k])
    ensures OrChain(FromU16(value)) == if 1 <= value <= 7 then FromU16(value).value else PckCertChain
  {}

  /** Chains and leaf certificates go to the PEM stage, type 6 to its nested payload; the
      other types have no certificates. */
  lemma {:induction false} CertDataExactly<C>(pem: PemStage<C>, dataType: CertDataType, data: Bytes)
    ensures var r := ParseCertData(pem, dataType, data);
            && (dataType in {PckLeafCert, PckCertChain} ==> r == pem(dataType, data))
            && (dataType in {PpidPlaintext, PpidRsa2048, PpidRsa3072, PlatformManifest} ==>
                 r == Ok(CertChain(dataType, [])))
            && (dataType == QeReportCertData && Nested(data) == None ==> r == CertificateError)
            && (dataType == QeReportCertData && Nested(data).Some? ==>
                 r == pem(OrChain(FromU16(Nested(data).value.0)), Nested(data).value.1))
  {}

  /** The section does not fit: no length, less than it says, or less than its own header. */
  predicate Short(quote: Bytes, offset: nat) {
    |quote| < offset + 4 || |quote| < offset + 4 + Le32(quote, offset) || Le32(quote, offset) < 134
  }

  /** On any bytes: what is too short, where the fields are, and when there is a chain. */
  lemma {:induction false} ParsedExactly<C>(pem: PemStage<C>, quote: Bytes, offset: nat)
    ensures Parse(pem, quote, offset) == TooShort <==> Short(quote, offset)
    ensures !Short(quote, offset) ==>
              var end := offset + 4 + Le32(quote, offset);
              var r := Parse(pem, quote, offset);
              && r.Ok?
              && r.value.signature == quote[offset + 4..offset + 68]
              && r.value.attestPubKey == quote[offset + 68..offset + 132]
              && r.value.certDataType == FromU16(Le16(quote, offset + 132))
              && r.value.certDataSize == Le32(quote, offset + 134)
              && (r.value.certDataSize == 0 || offset + 138 + r.value.certDataSize > end ==> r.value.certChain == None)
              && (0 < r.value.certDataSize && offset + 138 + r.value.certDataSize <= end ==>
                   var chain := ParseCertData(pem, OrChain(r.value.certDataType),
                                              quote[offset + 138..offset + 138 + r.value.certDataSize]);
                   r.value.certChain == if chain.Ok? then Some(chain.value) else None)
  {
    if !Short(quote, offset) {
      var size := Le32(quote, offset);
      var content := quote[offset + 4..offset + 4 + size];
      SliceOfSlice(quote, offset + 4, offset + 4 + size, 0, 64);
      SliceOfSlice(quote, offset + 4, offset + 4 + size, 64, 128);
      var certSize := Le32(content, 130);
      if |content| >= 134 + certSize {
        SliceOfSlice(quote, offset + 4, offset + 4 + size, 134, 134 + certSize);
      }
    }
  }

  lemma {:induction false} SliceOfSlice(b: Bytes, lo: nat, hi: nat, i: nat, j: nat)
    requires lo <= hi <= |b| && i <= j <= hi - lo
    ensures b[lo..hi][i..j] == b[lo + i..lo + j]
  {
    var x, y := b[lo..hi][i..j], b[lo + i..lo + j];
    assert |x| == |y| && forall k :: 0 <= k < |x| ==> x[k] == y[k];
  }

  // ---------------------------------------------------------------- encoding

  function U16(n: nat): Bytes
    requires n < 0x1_0000
  {
    [n % 0x100, n / 0x100]
  }

  function U32(n: nat): Bytes
    requires n < 0x1_0000_0000
  {
    [n % 0x100, n / 0x100 % 0x100, n / 0x1_0000 % 0x100, n / 0x100_0000]
  }

  /** Type 6 certification data. */
  function EncodeQeReport(report: Bytes, sig: Bytes, auth: Bytes, code: nat, payload: Bytes): Bytes
    requires |auth| < 0x1_0000 && code < 0x1_0000 && |payload| < 0x1_0000_0000
  {
    report + sig + U16(|auth|) + auth + U16(code) + U32(|payload|) + payload
  }

  function EncodeContent(sig: Bytes, key: Bytes, code: nat, certData: Bytes): Bytes
    requires code < 0x1_0000 && |certData| < 0x1_0000_0000
  {
    sig + key + U16(code) + U32(|certData|) + certData
  }

  lemma {:induction false} U16At(b: Bytes, pos: nat, n: nat)
    requires n < 0x1_0000 && pos + 2 <= |b| && b[pos..pos + 2] == U16(n)
    ensures Le16(b, pos) == n
  {
    assert b[pos] == b[pos..pos + 2][0] && b[pos + 1] == b[pos..pos + 2][1];
  }

  lemma {:induction false} U32At(b: Bytes, pos: nat, n: nat)
    requires n < 0x1_0000_0000 && pos + 4 <= |b| && b[pos..pos + 4] == U32(n)
    ensures Le32(b, pos) == n
  {
    var s := b[pos..pos + 4];
    assert b[pos] == s[0] && b[pos + 1] == s[1] && b[pos + 2] == s[2] && b[pos + 3] == s[3];
    Octets(n);
  }

  lemma {:induction false} Octets(n: nat)
    ensures n == n % 0x100 + 0x100 * (n / 0x100 % 0x100) + 0x1_0000 * (n / 0x1_0000 % 0x100)
                 + 0x100_0000 * (n / 0x100_0000)
  {
    var q := n / 0x100;
    assert n == n % 0x100 + 0x100 * q && n / 0x1_0000 == q / 0x100 && n / 0x100_0000 == q / 0x1_0000;
    assert q == q % 0x100 + 0x100 * (q / 0x100) && q / 0x1_0000 == q / 0x100 / 0x100;
  }

  /** Where a part lies inside a concatenation. */
  lemma {:induction false} Slice(before: Bytes, part: Bytes, after: Bytes)
    ensures (before + part + after)[|before|..|before| + |part|] == part
  {}

  /** The nested payload of any size of authentication data comes back unchanged. */
  lemma {:induction false} NestedRoundTrip(report: Bytes, sig: Bytes, auth: Bytes, code: nat, payload: Bytes,
      rest: Bytes)
    requires |report| == REPORT && |sig| == SIGNATURE
    requires |auth| < 0x1_0000 && code < 0x1_0000 && |payload| < 0x1_0000_0000
    ensures Nested(EncodeQeReport(report, sig, auth, code, payload) + rest) == Some((code, payload))
  {
    var data := EncodeQeReport(report, sig, auth, code, payload) + rest;
    var a := report + sig;
    var b := a + U16(|auth|) + auth;
    var c := b + U16(code);
    var d := c + U32(|payload|);
    assert data == a + U16(|auth|) + (auth + U16(code) + U32(|payload|) + payload + rest);
    Slice(a, U16(|auth|), auth + U16(code) + U32(|payload|) + payload + rest);
    U16At(data, |a|, |auth|);
    assert data == b + U16(code) + (U32(|payload|) + payload + rest);
    Slice(b, U16(code), U32(|payload|) + payload + rest);
    U16At(data, |b|, code);
    assert data == c + U32(|payload|) + (payload + rest);
    Slice(c, U32(|payload|), payload + rest);
    U32At(data, |c|, |payload|);
    assert data == d + payload + rest;
    Slice(d, payload, rest);
  }

  /** Conversely, whatever yields a nested payload is such an encoding, perhaps with
      trailing bytes, which are ignored. */
  lemma {:induction false} NestedIsEncoded(data: Bytes) returns (auth: Bytes, rest: Bytes)
    requires Nested(data).Some?
    ensures var (code, payload) := Nested(data).value;
            && |auth| < 0x1_0000 && code < 0x1_0000 && |payload| < 0x1_0000_0000
            && data == EncodeQeReport(data[..REPORT], data[REPORT..REPORT + SIGNATURE], auth, code, payload) + rest
  {
    var (code, payload) := Nested(data).value;
    var start := REPORT + SIGNATURE + 2;
    var pos := start + Le16(data, REPORT + SIGNATURE);
    auth, rest := data[start..pos], data[pos + 6 + |payload|..];
    Le16Inverse(data, REPORT + SIGNATURE);
    Le16Inverse(data, pos);
    Le32Inverse(data, pos + 2);
    assert data == data[..REPORT] + data[REPORT..REPORT + SIGNATURE] + data[REPORT + SIGNATURE..start] + auth
                   + data[pos..pos + 2] + data[pos + 2..pos + 6] + payload + rest;
  }

  lemma {:induction false} Le16Inverse(b: Bytes, pos: nat)
    requires pos + 2 <= |b|
    ensures Le16(b, pos) < 0x1_0000 && U16(Le16(b, pos)) == b[pos..pos + 2]
  {}

  lemma {:induction false} Le32Inverse(b: Bytes, pos: nat)
    requires pos + 4 <= |b|
    ensures Le32(b, pos) < 0x1_0000_0000 && U32(Le32(b, pos)) == b[pos..pos + 4]
  {
    var x0, x1, x2, x3 := b[pos] as nat, b[pos + 1] as nat, b[pos + 2] as nat, b[pos + 3] as nat;
    var n := x0 + 0x100 * (x1 + 0x100 * (x2 + 0x100 * x3));
    assert Le32(b, pos) == n;
    assert n % 0x100 == x0 && n / 0x100 == x1 + 0x100 * (x2 + 0x100 * x3);
    assert n / 0x100 % 0x100 == x1 && n / 0x1_0000 == x2 + 0x100 * x3;
    assert n / 0x1_0000 % 0x100 == x2 && n / 0x100_0000 == x3;
  }

  lemma {:induction false} ContentRoundTrip<C>(pem: PemStage<C>, sig: Bytes, key: Bytes, code: nat,
      certData: Bytes, before: Bytes, after: Bytes)
    requires |sig| == SIGNATURE && |key| == KEY && code < 0x1_0000 && 0 < |certData| < 0x1_0000_0000 - HEADER
    ensures |EncodeContent(sig, key, code, certData)| < 0x1_0000_0000
    ensures var content := EncodeContent(sig, key, code, certData);
            var chain := ParseCertData(pem, OrChain(FromU16(code)), certData);
            Parse(pem, before + U32(|content|) + content + after, |before|)
            == Ok(QuoteSignature(sig, key, FromU16(code), if chain.Ok? then Some(chain.value) else None, |certData|))
  {
    var content := EncodeContent(sig, key, code, certData);
    var quote := before + U32(|content|) + content + after;
    assert quote == before + U32(|content|) + (content + after);
    Slice(before, U32(|content|), content + after);
    U32At(quote, |before|, |content|);
    Slice(before + U32(|content|), content, after);
    ContentParts(sig, key, code, certData);
  }

  lemma {:induction false} ContentParts(sig: Bytes, key: Bytes, code: nat, certData: Bytes)
    requires |sig| == SIGNATURE && |key| == KEY && code < 0x1_0000 && |certData| < 0x1_0000_0000
    ensures var content := EncodeContent(sig, key, code, certData);
            && |content| == HEADER + |certData|
            && content[..SIGNATURE] == sig && content[SIGNATURE..SIGNATURE + KEY] == key
            && Le16(content, 128) == code && Le32(content, 130) == |certData|
            && content[HEADER..HEADER + |certData|] == certData
  {
    var content := EncodeContent(sig, key, code, certData);
    var a := sig + key;
    assert content == sig + key + (U16(code) + U32(|certData|) + certData);
    Slice(sig, key, U16(code) + U32(|certData|) + certData);
    assert content == a + U16(code) + (U32(|certData|) + certData);
    Slice(a, U16(code), U32(|certData|) + certData);
    U16At(content, 128, code);
    assert content == (a + U16(code)) + U32(|certData|) + certData;
    Slice(a + U16(code), U32(|certData|), certData);
    U32At(content, 130, |certData|);
  }

  /** Parsing an encoded signature section anywhere in a quote gives back the signature,
      the key and the size, and hands exactly the embedded payload to the PEM stage. */
  lemma {:induction false} SignatureRoundTrip<C>(pem: PemStage<C>, sig: Bytes, key: Bytes, report: Bytes,
      qeSig: Bytes, auth: Bytes, code: nat, payload: Bytes, before: Bytes, after: Bytes)
    requires |sig| == SIGNATURE && |key| == KEY && |report| == REPORT && |qeSig| == SIGNATURE
    requires |auth| < 0x1_0000 && code < 0x1_0000
    requires HEADER + REPORT + SIGNATURE + 2 + |auth| + 6 + |payload| < 0x1_0000_0000
    ensures var certData := EncodeQeReport(report, qeSig, auth, code, payload);
            && |certData| < 0x1_0000_0000 - HEADER
            && var content := EncodeContent(sig, key, 6, certData);
               var chain := pem(OrChain(FromU16(code)), payload);
               && |content| < 0x1_0000_0000
               && Parse(pem, before + U32(|content|) + content + after, |before|)
                  == Ok(QuoteSignature(sig, key, Some(QeReportCertData),
                                       if chain.Ok? then Some(chain.value) else None, |certData|))
  {
    var certData := EncodeQeReport(report, qeSig, auth, code, payload);
    NestedRoundTrip(report, qeSig, auth, code, payload, []);
    assert certData + [] == certData;
    ContentRoundTrip(pem, sig, key, 6, certData, before, after);
  }

  /** The source's own walk through the data, moving a position. */
  method ParseQeReportCertData<C>(pem: PemStage<C>, data: Bytes) returns (r: Result<CertChain<C>>)
    ensures r == ParseQeReport(pem, data)
    ensures |data| < REPORT + SIGNATURE + 2 ==> r == CertificateError
  {
    if |data| < REPORT + SIGNATURE + 2 { return CertificateError; }
    var pos := REPORT + SIGNATURE;
    var authSize := Le16(data, pos);
    pos := pos + 2 + authSize;
    if |data| < pos + 6 { return CertificateError; }
    var nestedType := OrChain(FromU16(Le16(data, pos)));
    pos := pos + 2;
    var nestedSize := Le32(data, pos);
    pos := pos + 4;
    if |data| < pos + nestedSize { return CertificateError; }
    r := pem(nestedType, data[pos..pos + nestedSize]);
  }

  // ---------------------------------------------------------- DER extensions

  datatype ExtensionValue = Integer(n: nat) | HexText(bytes: Bytes) | Text(bytes: Bytes)

  /** The unsigned big-endian value of the content octets. */
  function BigEndian(b: Bytes): nat {
    if b == [] then 0 else 0x100 * BigEndian(b[..|b| - 1]) + b[|b| - 1] as nat
  }

  function Pow256(k: nat): nat {
    if k == 0 then 1 else 0x100 * Pow256(k - 1)
  }

  lemma {:induction false} BigEndianBound(b: Bytes)
    ensures BigEndian(b) < Pow256(|b|)
  {
    if b != [] { BigEndianBound(b[..|b| - 1]); }
  }

  /** The value of two runs of octets, one before the other. */
  lemma {:induction false} BigEndianSplits(a: Bytes, b: Bytes)
    ensures BigEndian(a + b) == BigEndian(a) * Pow256(|b|) + BigEndian(b)
    ensures |b| == 1 ==> BigEndian(b) == b[0] as nat && Pow256(1) == 0x100
  {
    if b == [] {
      assert a + b == a;
    } else {
      var n := |b| - 1;
      BigEndianSplits(a, b[..n]);
      assert (a + b)[..|a + b| - 1] == a + b[..n];
      assert BigEndian(a + b) == 0x100 * (BigEndian(a) * Pow256(n) + BigEndian(b[..n])) + b[n] as nat;
      Regroup(BigEndian(a), Pow256(n), BigEndian(b[..n]));
    }
  }

  lemma {:induction false} Regroup(x: nat, p: nat, y: nat)
    ensures 0x100 * (x * p + y) == x * (0x100 * p) + 0x100 * y
  {}

  lemma {:induction false} PowersFit(k: nat)
    requires k <= 7
    ensures 0x100 * Pow256(k) <= U64_LIMIT
  {
    assert Pow256(1) == 0x100 && Pow256(2) == 0x1_0000 && Pow256(3) == 0x100_0000;
    assert Pow256(4) == 0x1_0000_0000 && Pow256(5) == 0x100_0000_0000;
    assert Pow256(6) == 0x1_0000_0000_0000 && Pow256(7) == 0x100_0000_0000_0000;
  }

  /** What the value of an extension is, by its tag; `utf8` tells valid UTF-8. */
  function ValueOf(utf8: Bytes -> bool, value: Bytes): ExtensionValue {
    if |value| < 2 then HexText(value) else
      var len := value[1] as nat;
      if value[0] == 0x02 && |value| >= 2 + len && len <= 8 then Integer(BigEndian(value[2..2 + len]))
      else if value[0] == 0x04 && |value| >= 2 + len then HexText(value[2..2 + len])
      else if value[0] in {0x0C, 0x13, 0x16} && |value| >= 2 + len && utf8(value[2..2 + len])
      then Text(value[2..2 + len])
      else HexText(value)
  }

  /** The 64-bit loop loses nothing: up to eight octets decode to their exact value. */
  method DecodeExtensionValue(utf8: Bytes -> bool, value: Bytes) returns (r: ExtensionValue)
    ensures r == ValueOf(utf8, value)
    ensures r.Integer? ==> r.n < U64_LIMIT
    ensures r.Integer? <==> |value| >= 2 && value[0] == 0x02 && value[1] <= 8 && |value| >= 2 + value[1] as nat
    ensures r.Integer? ==> r.n == BigEndian(value[2..2 + value[1] as nat])
    ensures r.Text? <==> && |value| >= 2 && value[0] in {0x0C, 0x13, 0x16} && |value| >= 2 + value[1] as nat
                         && utf8(value[2..2 + value[1] as nat])
    ensures r.Text? ==> r.bytes == value[2..2 + value[1] as nat]
    ensures r.HexText? ==> r.bytes == if |value| >= 2 && value[0] == 0x04 && |value| >= 2 + value[1] as nat
                                      then value[2..2 + value[1] as nat] else value
  {
    if |value| >= 2 && value[0] == 0x02 {
      var len := value[1] as nat;
      if |value| >= 2 + len && len <= 8 {
        var n: nat := 0;
        var content := value[2..2 + len];
        for k := 0 to len
          invariant n == BigEndian(content[..k]) && n < U64_LIMIT
        {
          BigEndianBound(content[..k]);
          PowersFit(k);
          assert content[..k + 1][..k] == content[..k];
          n := n * 0x100 % U64_LIMIT + content[k] as nat;
        }
        assert content[..len] == content;
        return Integer(n);
      }
    }
    if |value| >= 2 && value[0] == 0x04 {
      var len := value[1] as nat;
      if |value| >= 2 + len { return HexText(value[2..2 + len]); }
    }
    if |value| >= 2 && value[0] in {0x0C, 0x13, 0x16} {
      var len := value[1] as nat;
      if |value| >= 2 + len && utf8(value[2..2 + len]) { return Text(value[2..2 + len]); }
    }
    r := HexText(value);
  }
}
