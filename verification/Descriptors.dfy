// The configuration-descriptor parser of libusb-andro/libusb/descriptor.c: what its nested loops
// compute on any bytes, with the descriptors of sections 9.6.3, 9.6.5 and 9.6.6 of the USB 2.0
// specification, and a printer for well-formed trees.

module Descriptors {
  import opened Wrappers

  const DT_DEVICE: Byte := 1
  const DT_CONFIG: Byte := 2
  const DT_INTERFACE: Byte := 4
  const DT_ENDPOINT: Byte := 5
  const MAX_ENDPOINTS := 32
  const MAX_INTERFACES := 32

  datatype Endpoint = Endpoint(
    bLength: Byte, bEndpointAddress: Byte, bmAttributes: Byte, wMaxPacketSize: nat, bInterval: Byte,
    bRefresh: Byte, bSynchAddress: Byte, extra: seq<Byte>)

  // endpoints is the array the pointer of the same name leads to, [] if it is NULL.
  datatype AltSetting = AltSetting(
    bLength: Byte, bInterfaceNumber: Byte, bAlternateSetting: Byte, bNumEndpoints: Byte, bInterfaceClass: Byte,
    bInterfaceSubClass: Byte, bInterfaceProtocol: Byte, iInterface: Byte, endpoints: seq<Endpoint>, extra: seq<Byte>)

  datatype Config = Config(
    bLength: Byte, wTotalLength: nat, bNumInterfaces: Byte, bConfigurationValue: Byte, iConfiguration: Byte,
    bmAttributes: Byte, maxPower: Byte, interfaces: seq<seq<AltSetting>>, extra: seq<Byte>)

  // What a parser returns: a value and the bytes it leaves, nothing (the C function returns 0), or
  // LIBUSB_ERROR_IO. The C functions return the number of bytes taken.
  datatype Parse<T> = Parsed(value: T, rest: seq<Byte>) | Nothing | IoError

  function Word(lo: Byte, hi: Byte): (w: nat)
    ensures w < 0x10000
  {
    hi * 256 + lo
  }

  predicate Proper(t: Byte) { t == DT_ENDPOINT || t == DT_INTERFACE || t == DT_CONFIG || t == DT_DEVICE }

  // ---------------------------------------------------------------- the parsers

  // The loop that skips unknown descriptors: how many bytes, and whether it met one that is cut
  // off or one with an impossible length.
  datatype Skip = Skipped(n: nat) | CutOff(n: nat) | BadLength

  function SkipUnknown(b: seq<Byte>): (r: Skip)
    ensures !r.BadLength? ==> r.n <= |b|
  {
    if |b| < 2 then Skipped(0)
    else if b[0] < 2 then BadLength
    else if b[0] > |b| then CutOff(0)
    else if Proper(b[1]) then Skipped(0)
    else
      match SkipUnknown(b[b[0]..])
      case Skipped(n) => Skipped(b[0] + n)
      case CutOff(n) => CutOff(b[0] + n)
      case BadLength => BadLength
  }

  // parse_endpoint
  function ParseEndpoint(b: seq<Byte>): (r: Parse<Endpoint>)
    ensures r.Parsed? ==> |r.rest| + 7 <= |b|
  {
    if |b| < 2 then IoError
    else if b[1] != DT_ENDPOINT || b[0] > |b| then Nothing
    else if b[0] < 7 then IoError
    else
      ParseEndpointExtra(EndpointHeader(b), b[b[0]..])
  }

  function EndpointHeader(b: seq<Byte>): Endpoint
    requires 7 <= |b| && b[0] <= |b|
  {
    var audio := b[0] >= 9;
    Endpoint(b[0], b[2], b[3], Word(b[4], b[5]), b[6], if audio then b[7] else 0, if audio then b[8] else 0, [])
  }

  // What follows the endpoint descriptor itself.
  function ParseEndpointExtra(e: Endpoint, b: seq<Byte>): (r: Parse<Endpoint>)
    ensures r.Parsed? ==> |r.rest| <= |b|
  {
    match SkipUnknown(b)
    case Skipped(n) => Parsed(e.(extra := b[..n]), b[n..])
    case CutOff(n) => Parsed(e, b[n..])
    case BadLength => IoError
  }

  // The endpoint loop of parse_interface, for n declared endpoints.
  function ParseEndpoints(b: seq<Byte>, n: nat): (r: Parse<seq<Endpoint>>)
    ensures !r.Nothing? && (r.Parsed? ==> |r.rest| <= |b| && |r.value| <= n)
  {
    if n == 0 then Parsed([], b)
    else
      match ParseEndpoint(b)
      case IoError => IoError
      case Nothing => Parsed([], b)
      case Parsed(e, rest) =>
        match ParseEndpoints(rest, n - 1)
        case Parsed(es, rest') => Parsed([e] + es, rest')
        case _ => IoError
  }

  // One turn of parse_interface's outer loop. cut: it returns in the middle, at a class-specific
  // descriptor that is cut off.
  datatype Alt = Alt(alt: AltSetting, rest: seq<Byte>, cut: bool) | NoAlt | AltError

  function ParseAlt(b: seq<Byte>): (r: Alt)
    requires |b| >= 9
    ensures r.Alt? ==> |r.rest| + 9 <= |b|
  {
    if b[1] != DT_INTERFACE then NoAlt
    else if b[0] < 9 then AltError
    else if b[0] > |b| then NoAlt
    else if b[4] > MAX_ENDPOINTS then AltError
    else ParseAltBody(AltHeader(b), b[b[0]..])
  }

  function AltHeader(b: seq<Byte>): AltSetting
    requires |b| >= 9
  {
    AltSetting(b[0], b[2], b[3], b[4], b[5], b[6], b[7], b[8], [], [])
  }

  // What follows the interface descriptor itself.
  function ParseAltBody(a: AltSetting, b: seq<Byte>): (r: Alt)
    ensures !r.NoAlt? && (r.Alt? ==> |r.rest| <= |b|)
  {
    match SkipUnknown(b)
    case BadLength => AltError
    case CutOff(n) => Alt(a, b[n..], true)
    case Skipped(n) =>
      match ParseEndpoints(b[n..], a.bNumEndpoints)
      case Parsed(es, rest) =>
        assert |es| <= a.bNumEndpoints;
        Alt(a.(extra := b[..n], endpoints := es, bNumEndpoints := |es|), rest, false)
      case _ => AltError
  }

  predicate IsAlternate(b: seq<Byte>, number: Byte) { |b| >= 9 && b[1] == DT_INTERFACE && b[2] == number }

  // parse_interface; number is the interface number of the first setting, or -1
  function ParseInterface(b: seq<Byte>, number: int): (r: Parse<seq<AltSetting>>)
    requires -1 <= number < 256
    ensures !r.Nothing?
    ensures r.Parsed? ==> if r.value == [] then r.rest == b else |r.rest| + 9 <= |b|
    decreases |b|
  {
    if |b| < 9 then Parsed([], b)
    else
      match ParseAlt(b)
      case AltError => IoError
      case NoAlt => Parsed([], b)
      case Alt(a, rest, cut) =>
        var number' := if number == -1 then a.bInterfaceNumber else number;
        if cut || !IsAlternate(rest, number') then Parsed([a], rest)
        else
          match ParseInterface(rest, number')
          case Parsed(alts, rest') => Parsed([a] + alts, rest')
          case _ => IoError
  }

  datatype Body = Body(extra: seq<Byte>, interfaces: seq<seq<AltSetting>>)

  // The loop of parse_configuration, for n declared interfaces.
  function ParseBody(b: seq<Byte>, n: nat): (r: Parse<Body>)
    ensures !r.Nothing? && (r.Parsed? ==> |r.rest| <= |b| && |r.value.interfaces| <= n)
    decreases n
  {
    if n == 0 then Parsed(Body([], []), b)
    else
      match SkipUnknown(b)
      case BadLength => IoError
      case CutOff(k) => Parsed(Body([], []), b[k..])
      case Skipped(k) =>
        match ParseInterface(b[k..], -1)
        case Parsed(alts, rest) =>
          if alts == [] then Parsed(Body(b[..k], []), rest) else Prepend(b[..k], alts, ParseBody(rest, n - 1))
        case _ => IoError
  }

  // Of the runs of unknown descriptors in front of interfaces it keeps the first that is not empty.
  function Prepend(extra: seq<Byte>, alts: seq<AltSetting>, r: Parse<Body>): (r': Parse<Body>)
    ensures r'.Parsed? <==> r.Parsed?
    ensures r.Parsed? ==> r'.rest == r.rest && |r'.value.interfaces| == |r.value.interfaces| + 1
    ensures r.IoError? <==> r'.IoError?
  {
    match r
    case Parsed(body, rest) => Parsed(Body(if extra != [] then extra else body.extra, [alts] + body.interfaces), rest)
    case _ => r
  }

  // parse_configuration; it returns how many bytes are left
  function ParseConfiguration(b: seq<Byte>): (r: Parse<Config>)
    ensures !r.Nothing?
    ensures r.Parsed? ==> |r.rest| + 9 <= |b| && r.value.bNumInterfaces == |r.value.interfaces| <= MAX_INTERFACES
  {
    if |b| < 9 || b[1] != DT_CONFIG || b[0] < 9 || b[0] > |b| || b[4] > MAX_INTERFACES then IoError
    else
      match ParseBody(b[b[0]..], b[4])
      case Parsed(body, rest) =>
        Parsed(Config(b[0], Word(b[2], b[3]), |body.interfaces|, b[5], b[6], b[7], b[8], body.interfaces, body.extra), rest)
      case _ => IoError
  }

  // ---------------------------------------------------------------- well-formed trees and the printer

  // A sequence of descriptors that are none of the four the parser knows.
  predicate Unknowns(e: seq<Byte>) {
    e == [] || (|e| >= 2 && 2 <= e[0] <= |e| && !Proper(e[1]) && Unknowns(e[e[0]..]))
  }

  predicate WellFormedEndpoint(e: Endpoint) {
    && (e.bLength == 9 || (e.bLength == 7 && e.bRefresh == 0 && e.bSynchAddress == 0))
    && e.wMaxPacketSize < 0x10000 && Unknowns(e.extra)
  }

  predicate WellFormedAlt(a: AltSetting) {
    && a.bLength == 9 && a.bNumEndpoints == |a.endpoints| <= MAX_ENDPOINTS && Unknowns(a.extra)
    && forall e :: e in a.endpoints ==> WellFormedEndpoint(e)
  }

  // The settings of one interface share its number.
  predicate WellFormedInterface(alts: seq<AltSetting>) {
    && alts != []
    && (forall a :: a in alts ==> WellFormedAlt(a) && a.bInterfaceNumber == alts[0].bInterfaceNumber)
  }

  // Settings of neighbouring interfaces must not look like alternates of each other.
  predicate WellFormedInterfaces(ifs: seq<seq<AltSetting>>) {
    && (forall i :: i in ifs ==> WellFormedInterface(i))
    && (forall k :: 0 < k < |ifs| ==> Number(ifs[k - 1]) != Number(ifs[k]))
  }

  function Number(alts: seq<AltSetting>): int { if alts == [] then -1 else alts[0].bInterfaceNumber }

  predicate WellFormed(c: Config) {
    && c.bLength == 9 && c.wTotalLength < 0x10000 && c.bNumInterfaces == |c.interfaces| <= MAX_INTERFACES
    && Unknowns(c.extra) && (c.interfaces == [] ==> c.extra == [])
    && WellFormedInterfaces(c.interfaces)
  }

  function Bytes(w: nat): seq<Byte>
    requires w < 0x10000
  {
    [w % 256, w / 256]
  }

  function EndpointFields(e: Endpoint): (r: seq<Byte>)
    requires WellFormedEndpoint(e)
    ensures |r| == e.bLength
  {
    [e.bLength, DT_ENDPOINT, e.bEndpointAddress, e.bmAttributes] + Bytes(e.wMaxPacketSize) + [e.bInterval]
    + if e.bLength == 9 then [e.bRefresh, e.bSynchAddress] else []
  }

  // The printers put their output in front of b.
  function PrintEndpoint(e: Endpoint, b: seq<Byte>): seq<Byte>
    requires WellFormedEndpoint(e)
  {
    EndpointFields(e) + (e.extra + b)
  }

  function PrintEndpoints(es: seq<Endpoint>, b: seq<Byte>): seq<Byte>
    requires forall e :: e in es ==> WellFormedEndpoint(e)
  {
    if es == [] then b else PrintEndpoint(es[0], PrintEndpoints(es[1..], b))
  }

  function AltFields(a: AltSetting): (r: seq<Byte>)
    requires WellFormedAlt(a)
    ensures |r| == 9
  {
    [a.bLength, DT_INTERFACE, a.bInterfaceNumber, a.bAlternateSetting, a.bNumEndpoints, a.bInterfaceClass,
     a.bInterfaceSubClass, a.bInterfaceProtocol, a.iInterface]
  }

  function PrintAlt(a: AltSetting, b: seq<Byte>): seq<Byte>
    requires WellFormedAlt(a)
  {
    AltFields(a) + (a.extra + PrintEndpoints(a.endpoints, b))
  }

  function PrintInterface(alts: seq<AltSetting>, b: seq<Byte>): seq<Byte>
    requires forall a :: a in alts ==> WellFormedAlt(a)
  {
    if alts == [] then b else PrintAlt(alts[0], PrintInterface(alts[1..], b))
  }

  function PrintInterfaces(ifs: seq<seq<AltSetting>>): seq<Byte>
    requires forall i :: i in ifs ==> WellFormedInterface(i)
  {
    if ifs == [] then []
    else
      assert WellFormedInterface(ifs[0]);
      PrintInterface(ifs[0], PrintInterfaces(ifs[1..]))
  }

  function ConfigFields(c: Config): (r: seq<Byte>)
    requires WellFormed(c)
    ensures |r| == 9
  {
    [c.bLength, DT_CONFIG] + Bytes(c.wTotalLength)
    + [c.bNumInterfaces, c.bConfigurationValue, c.iConfiguration, c.bmAttributes, c.maxPower]
  }

  function Print(c: Config): seq<Byte>
    requires WellFormed(c)
  {
    ConfigFields(c) + (c.extra + PrintInterfaces(c.interfaces))
  }

  // ---------------------------------------------------------------- parsing what was printed

  // Where the skipping loops stop without complaint: at the end, or at a whole known descriptor.
  predicate Stops(b: seq<Byte>) { b == [] || (|b| >= 2 && 2 <= b[0] <= |b| && Proper(b[1])) }

  lemma {:induction false} SkipsUnknowns(e: seq<Byte>, b: seq<Byte>)
    requires Unknowns(e) && Stops(b)
    ensures SkipUnknown(e + b) == Skipped(|e|)
  {
    if e == [] {
      assert e + b == b;
    } else {
      SkipsUnknowns(e[e[0]..], b);
      assert (e + b)[e[0]..] == e[e[0]..] + b;
    }
  }

  lemma Split(f: seq<Byte>, b: seq<Byte>)
    ensures (f + b)[|f|..] == b && (f + b)[..|f|] == f
  {
  }

  lemma EndpointFieldsAt(e: Endpoint, q: seq<Byte>)
    requires WellFormedEndpoint(e)
    ensures var p := EndpointFields(e) + q;
            && p[0] == e.bLength && p[1] == DT_ENDPOINT && p[2] == e.bEndpointAddress && p[3] == e.bmAttributes
            && Word(p[4], p[5]) == e.wMaxPacketSize && p[6] == e.bInterval
            && (e.bLength == 9 ==> p[7] == e.bRefresh && p[8] == e.bSynchAddress)
  {
    hide Unknowns;
  }

  lemma ParsesEndpoint(e: Endpoint, b: seq<Byte>)
    requires WellFormedEndpoint(e) && Stops(b)
    ensures ParseEndpoint(PrintEndpoint(e, b)) == Parsed(e, b) && Stops(PrintEndpoint(e, b))
  {
    var q := e.extra + b;
    EndpointFieldsAt(e, q);
    SkipsUnknowns(e.extra, b);
    hide SkipUnknown, Unknowns, EndpointFields, Word;
    Split(EndpointFields(e), q);
    Split(e.extra, b);
  }

  lemma {:induction false} ParsesEndpoints(es: seq<Endpoint>, b: seq<Byte>)
    requires (forall e :: e in es ==> WellFormedEndpoint(e)) && Stops(b)
    ensures ParseEndpoints(PrintEndpoints(es, b), |es|) == Parsed(es, b) && Stops(PrintEndpoints(es, b))
  {
    hide ParseEndpoint, PrintEndpoint, WellFormedEndpoint, Stops;
    if es != [] {
      ParsesEndpoints(es[1..], b);
      ParsesEndpoint(es[0], PrintEndpoints(es[1..], b));
      assert [es[0]] + es[1..] == es;
    }
  }

  lemma AltFieldsAt(a: AltSetting, q: seq<Byte>)
    requires WellFormedAlt(a)
    ensures var p := AltFields(a) + q;
            && p[0] == 9 && p[1] == DT_INTERFACE && p[2] == a.bInterfaceNumber && p[3] == a.bAlternateSetting
            && p[4] == |a.endpoints| && p[5] == a.bInterfaceClass && p[6] == a.bInterfaceSubClass
            && p[7] == a.bInterfaceProtocol && p[8] == a.iInterface
  {
    hide Unknowns, WellFormedEndpoint;
  }

  lemma ParsesAltBody(a: AltSetting, b: seq<Byte>)
    requires WellFormedAlt(a) && Stops(b)
    ensures ParseAltBody(a.(extra := [], endpoints := []), a.extra + PrintEndpoints(a.endpoints, b)) == Alt(a, b, false)
  {
    var e := PrintEndpoints(a.endpoints, b);
    ParsesEndpoints(a.endpoints, b);
    SkipsUnknowns(a.extra, e);
    hide ParseEndpoints, SkipUnknown, Unknowns, PrintEndpoints, Stops, WellFormedEndpoint;
    Split(a.extra, e);
  }

  lemma ParsesAlt(a: AltSetting, b: seq<Byte>)
    requires WellFormedAlt(a) && Stops(b)
    ensures var p := PrintAlt(a, b);
            |p| >= 9 && ParseAlt(p) == Alt(a, b, false) && Stops(p) && IsAlternate(p, a.bInterfaceNumber)
  {
    var q := a.extra + PrintEndpoints(a.endpoints, b);
    AltFieldsAt(a, q);
    ParsesAltBody(a, b);
    Split(AltFields(a), q);
    hide ParseAltBody, PrintEndpoints, AltFields, WellFormedEndpoint, Unknowns;
  }

  // Settings of one interface are parsed together, up to a setting of another one.
  lemma {:induction false} ParsesInterface(alts: seq<AltSetting>, b: seq<Byte>, number: int)
    requires WellFormedInterface(alts) && Stops(b) && !IsAlternate(b, alts[0].bInterfaceNumber)
    requires number == -1 || number == alts[0].bInterfaceNumber
    ensures var p := PrintInterface(alts, b);
            ParseInterface(p, number) == Parsed(alts, b) && Stops(p) && |p| >= 9 && IsAlternate(p, alts[0].bInterfaceNumber)
  {
    hide ParseAlt, PrintAlt, WellFormedAlt, Stops, IsAlternate;
    assert alts == [alts[0]] + alts[1..];
    if |alts| == 1 {
      assert alts == [alts[0]];
    } else {
      assert forall a :: a in alts[1..] ==> a in alts;
      assert alts[1..][0] in alts;
      ParsesInterface(alts[1..], b, alts[0].bInterfaceNumber);
    }
    ParsesAlt(alts[0], PrintInterface(alts[1..], b));
  }

  // The next interface is none of the settings of this one.
  predicate Begins(b: seq<Byte>, n: int) { forall m: Byte :: m != n ==> !IsAlternate(b, m) }

  lemma {:induction false} ParsesInterfaces(ifs: seq<seq<AltSetting>>)
    requires WellFormedInterfaces(ifs)
    ensures ParseBody(PrintInterfaces(ifs), |ifs|) == Parsed(Body([], ifs), [])
    ensures Stops(PrintInterfaces(ifs)) && Begins(PrintInterfaces(ifs), if ifs == [] then -1 else Number(ifs[0]))
  {
    hide ParseInterface, PrintInterface, WellFormedAlt;
    if ifs != [] {
      var p, q := PrintInterfaces(ifs), PrintInterfaces(ifs[1..]);
      RestWellFormed(ifs);
      ParsesInterfaces(ifs[1..]);
      assert !IsAlternate(q, ifs[0][0].bInterfaceNumber);
      hide WellFormedInterfaces, Begins;
      ParsesInterface(ifs[0], q, -1);
      assert SkipUnknown(p) == Skipped(0) && p[0..] == p && p[..0] == [];
      assert ifs == [ifs[0]] + ifs[1..];
      hide SkipUnknown, Stops;
      BeginsWith(p, ifs[0][0].bInterfaceNumber);
    }
  }

  lemma BeginsWith(b: seq<Byte>, n: Byte)
    requires IsAlternate(b, n)
    ensures Begins(b, n)
  {
  }

  lemma RestWellFormed(ifs: seq<seq<AltSetting>>)
    requires WellFormedInterfaces(ifs) && ifs != []
    ensures WellFormedInterface(ifs[0]) && WellFormedInterfaces(ifs[1..])
    ensures |ifs| > 1 ==> Number(ifs[0]) != Number(ifs[1])
  {
    hide WellFormedInterface, Number;
    assert ifs[0] in ifs;
    forall i | i in ifs[1..] ensures WellFormedInterface(i) { assert i in ifs; }
    forall k | 0 < k < |ifs[1..]| ensures Number(ifs[1..][k - 1]) != Number(ifs[1..][k]) {
      assert Number(ifs[k]) != Number(ifs[k + 1]);
    }
  }

  lemma ConfigFieldsAt(c: Config, q: seq<Byte>)
    requires WellFormed(c)
    ensures var p := ConfigFields(c) + q;
            && p[0] == 9 && p[1] == DT_CONFIG && Word(p[2], p[3]) == c.wTotalLength && p[4] == |c.interfaces|
            && p[5] == c.bConfigurationValue && p[6] == c.iConfiguration && p[7] == c.bmAttributes && p[8] == c.maxPower
  {
    hide Unknowns, WellFormedInterfaces;
  }

  lemma ParsesBody(e: seq<Byte>, ifs: seq<seq<AltSetting>>)
    requires Unknowns(e) && WellFormedInterfaces(ifs) && (ifs == [] ==> e == [])
    ensures ParseBody(e + PrintInterfaces(ifs), |ifs|) == Parsed(Body(e, ifs), [])
  {
    var p := PrintInterfaces(ifs);
    ParsesInterfaces(ifs);
    if ifs == [] {
      assert e + p == p;
    } else {
      SkipsUnknowns(e, p);
      SkipsUnknowns([], p);
      assert [] + p == p && p[0..] == p;
      hide PrintInterfaces, SkipUnknown, ParseInterface, Unknowns, WellFormedInterfaces, Stops, Begins;
      Split(e, p);
    }
  }

  // Parsing the printed form of a well-formed tree gives the tree back, with no bytes left.
  lemma RoundTrip(c: Config)
    requires WellFormed(c)
    ensures ParseConfiguration(Print(c)) == Parsed(c, [])
  {
    var q := c.extra + PrintInterfaces(c.interfaces);
    ConfigFieldsAt(c, q);
    ParsesBody(c.extra, c.interfaces);
    Split(ConfigFields(c), q);
    hide PrintInterfaces, ParseBody, ConfigFields, Unknowns, WellFormedInterfaces;
  }

  // ---------------------------------------------------------------- in the numbers of the standard

  // The types of Table 9-5 of the USB 2.0 specification: device, configuration, interface and endpoint.
  lemma KnownTypes(t: Byte)
    ensures Proper(t) <==> t == 1 || t == 2 || t == 4 || t == 5
  {
  }

  // Tables 9-10, 9-12 and 9-13: which byte says what.
  lemma FieldOffsets(c: Config, a: AltSetting, e: Endpoint)
    requires WellFormed(c) && WellFormedAlt(a) && WellFormedEndpoint(e)
    ensures var b := ConfigFields(c);
            && b[0] == 9 && b[1] == 2 && (b[2] as int) + 256 * (b[3] as int) == c.wTotalLength && b[4] == c.bNumInterfaces
            && b[5] == c.bConfigurationValue && b[6] == c.iConfiguration && b[7] == c.bmAttributes && b[8] == c.maxPower
    ensures var b := AltFields(a);
            && b[0] == 9 && b[1] == 4 && b[2] == a.bInterfaceNumber && b[3] == a.bAlternateSetting && b[4] == a.bNumEndpoints
            && b[5] == a.bInterfaceClass && b[6] == a.bInterfaceSubClass && b[7] == a.bInterfaceProtocol && b[8] == a.iInterface
    ensures var b := EndpointFields(e);
            && b[0] == |b| && b[1] == 5 && b[2] == e.bEndpointAddress && b[3] == e.bmAttributes
            && (b[4] as int) + 256 * (b[5] as int) == e.wMaxPacketSize && b[6] == e.bInterval
            && (|b| == 9 ==> b[7] == e.bRefresh && b[8] == e.bSynchAddress)
  {
  }

  // Which headers are refused: the three parsers' checks, in the order of the C code.
  lemma HeaderChecks(b: seq<Byte>)
    ensures |b| < 9 || b[1] != 2 || b[0] < 9 || b[0] > |b| || b[4] > 32 ==> ParseConfiguration(b) == IoError
    ensures |b| >= 9 && b[1] == 2 && 9 <= b[0] <= |b| && b[4] == 0 ==> ParseConfiguration(b).Parsed?
    ensures |b| >= 9 ==>
              && (ParseAlt(b) == NoAlt <==> b[1] != 4 || b[0] > |b|)
              && (b[1] == 4 && (b[0] < 9 || (b[0] <= |b| && b[4] > 32)) ==> ParseAlt(b) == AltError)
    ensures |b| < 2 ==> ParseEndpoint(b) == IoError
    ensures |b| >= 2 && (b[1] != 5 || b[0] > |b|) ==> ParseEndpoint(b) == Nothing
    ensures |b| >= 2 && b[1] == 5 && b[0] < 7 && b[0] <= |b| ==> ParseEndpoint(b) == IoError
  {
    hide SkipUnknown, ParseEndpoints, ParseInterface;
  }

  // An ordinary input: a configuration with one setting, a class-specific descriptor, a bulk endpoint of
  // seven bytes and an audio endpoint of nine. All of it comes out where it belongs.
  lemma OrdinaryExample()
    ensures ParseConfiguration(
              [9, 2, 37, 1, 1, 3, 4, 128, 50] + [9, 4, 6, 1, 2, 8, 10, 11, 12] + [3, 36, 77]
              + [7, 5, 129, 2, 52, 18, 3] + [9, 5, 13, 14, 64, 0, 15, 16, 17])
            == Parsed(
                 Config(9, 293, 1, 3, 4, 128, 50,
                        [[AltSetting(9, 6, 1, 2, 8, 10, 11, 12,
                                     [Endpoint(7, 129, 2, 4660, 3, 0, 0, []), Endpoint(9, 13, 14, 64, 15, 16, 17, [])],
                                     [3, 36, 77])]],
                        []),
                 [])
  {
    var e0, e1 := Endpoint(7, 129, 2, 4660, 3, 0, 0, []), Endpoint(9, 13, 14, 64, 15, 16, 17, []);
    var a := AltSetting(9, 6, 1, 2, 8, 10, 11, 12, [e0, e1], [3, 36, 77]);
    var c := Config(9, 293, 1, 3, 4, 128, 50, [[a]], []);
    ExampleIsWellFormed(e0, e1, a, c);
    ExamplePrints(e0, e1, a, c);
    RoundTrip(c);
  }

  lemma ExampleIsWellFormed(e0: Endpoint, e1: Endpoint, a: AltSetting, c: Config)
    requires e0 == Endpoint(7, 129, 2, 4660, 3, 0, 0, []) && e1 == Endpoint(9, 13, 14, 64, 15, 16, 17, [])
    requires a == AltSetting(9, 6, 1, 2, 8, 10, 11, 12, [e0, e1], [3, 36, 77])
    requires c == Config(9, 293, 1, 3, 4, 128, 50, [[a]], [])
    ensures WellFormedEndpoint(e0) && WellFormedEndpoint(e1) && WellFormedAlt(a) && WellFormed(c)
  {
    var x: seq<Byte> := [3, 36, 77];
    assert x[3..] == [];
    assert Unknowns(x);
    assert WellFormedInterface([a]);
  }

  lemma ExamplePrints(e0: Endpoint, e1: Endpoint, a: AltSetting, c: Config)
    requires e0 == Endpoint(7, 129, 2, 4660, 3, 0, 0, []) && e1 == Endpoint(9, 13, 14, 64, 15, 16, 17, [])
    requires a == AltSetting(9, 6, 1, 2, 8, 10, 11, 12, [e0, e1], [3, 36, 77])
    requires c == Config(9, 293, 1, 3, 4, 128, 50, [[a]], [])
    requires WellFormedEndpoint(e0) && WellFormedEndpoint(e1) && WellFormedAlt(a) && WellFormed(c)
    ensures Print(c) == [9, 2, 37, 1, 1, 3, 4, 128, 50] + [9, 4, 6, 1, 2, 8, 10, 11, 12] + [3, 36, 77]
                        + [7, 5, 129, 2, 52, 18, 3] + [9, 5, 13, 14, 64, 0, 15, 16, 17]
  {
    assert WellFormedInterface([a]);
    var f0, f1 := EndpointFields(e0), EndpointFields(e1);
    ExampleFields(e0, e1, a, c);
    hide EndpointFields, AltFields, ConfigFields, WellFormed, WellFormedAlt, WellFormedInterface, WellFormedEndpoint;
    assert [e0, e1][1..] == [e1] && [e1][1..] == [];
    assert PrintEndpoints([e1], []) == f1;
    assert PrintEndpoints([e0, e1], []) == f0 + f1;
    hide PrintEndpoints;
    assert [a][1..] == [] && [[a]][1..] == [];
    assert PrintInterface([a], []) == AltFields(a) + ([3, 36, 77] + (f0 + f1));
    assert PrintInterfaces([[a]]) == AltFields(a) + ([3, 36, 77] + (f0 + f1));
    hide PrintInterface, PrintInterfaces;
  }

  lemma ExampleFields(e0: Endpoint, e1: Endpoint, a: AltSetting, c: Config)
    requires e0 == Endpoint(7, 129, 2, 4660, 3, 0, 0, []) && e1 == Endpoint(9, 13, 14, 64, 15, 16, 17, [])
    requires a == AltSetting(9, 6, 1, 2, 8, 10, 11, 12, [e0, e1], [3, 36, 77])
    requires c == Config(9, 293, 1, 3, 4, 128, 50, [[a]], [])
    requires WellFormedEndpoint(e0) && WellFormedEndpoint(e1) && WellFormedAlt(a) && WellFormed(c)
    ensures EndpointFields(e0) == [7, 5, 129, 2, 52, 18, 3] && EndpointFields(e1) == [9, 5, 13, 14, 64, 0, 15, 16, 17]
    ensures AltFields(a) == [9, 4, 6, 1, 2, 8, 10, 11, 12] && ConfigFields(c) == [9, 2, 37, 1, 1, 3, 4, 128, 50]
  {
    hide WellFormed, WellFormedAlt, WellFormedInterface, WellFormedEndpoint;
  }

  // ---------------------------------------------------------------- nothing is lost or made up

  // A descriptor that says it is longer than what is left.
  predicate Stuck(b: seq<Byte>) { |b| >= 2 && b[0] >= 2 && b[0] > |b| }

  // Where the skipping loops take nothing.
  predicate AtStop(b: seq<Byte>) { SkipUnknown(b) == Skipped(0) }

  lemma {:induction false} SkipStops(b: seq<Byte>)
    ensures SkipUnknown(b).CutOff? ==> Stuck(b[SkipUnknown(b).n..])
    ensures SkipUnknown(b).Skipped? ==> AtStop(b[SkipUnknown(b).n..])
  {
    if |b| >= 2 && 2 <= b[0] <= |b| && !Proper(b[1]) {
      var r := SkipUnknown(b[b[0]..]);
      SkipStops(b[b[0]..]);
      if !r.BadLength? { assert b[b[0]..][r.n..] == b[b[0] + r.n..]; }
    } else {
      assert b[0..] == b;
    }
  }

  // b begins with exactly the descriptors of the tree, in order; what comes after them. Only the
  // declared counts may be higher in b.
  function TakeEndpoint(e: Endpoint, b: seq<Byte>): Option<seq<Byte>> {
    if && 7 <= e.bLength <= |b| && b[0] == e.bLength && b[1] == DT_ENDPOINT
       && b[2] == e.bEndpointAddress && b[3] == e.bmAttributes && Word(b[4], b[5]) == e.wMaxPacketSize && b[6] == e.bInterval
       && (if e.bLength >= 9 then b[7] == e.bRefresh && b[8] == e.bSynchAddress else e.bRefresh == 0 == e.bSynchAddress)
       && e.extra <= b[e.bLength..]
    then Some(b[e.bLength..][|e.extra|..])
    else None
  }

  function TakeEndpoints(es: seq<Endpoint>, b: seq<Byte>): Option<seq<Byte>> {
    if es == [] then Some(b)
    else match TakeEndpoint(es[0], b) case Some(rest) => TakeEndpoints(es[1..], rest) case None => None
  }

  function TakeAlt(a: AltSetting, b: seq<Byte>): Option<seq<Byte>> {
    if && 9 <= a.bLength <= |b| && b[0] == a.bLength && b[1] == DT_INTERFACE && b[2] == a.bInterfaceNumber
       && b[3] == a.bAlternateSetting && a.bNumEndpoints == |a.endpoints| <= b[4] && b[5] == a.bInterfaceClass
       && b[6] == a.bInterfaceSubClass && b[7] == a.bInterfaceProtocol && b[8] == a.iInterface
       && a.extra <= b[a.bLength..]
    then TakeEndpoints(a.endpoints, b[a.bLength..][|a.extra|..])
    else None
  }

  function TakeInterface(alts: seq<AltSetting>, b: seq<Byte>): Option<seq<Byte>> {
    if alts == [] then Some(b)
    else match TakeAlt(alts[0], b) case Some(rest) => TakeInterface(alts[1..], rest) case None => None
  }

  function TakeInterfaces(ifs: seq<seq<AltSetting>>, b: seq<Byte>): Option<seq<Byte>> {
    if ifs == [] then Some(b)
    else match TakeInterface(ifs[0], b) case Some(rest) => TakeInterfaces(ifs[1..], rest) case None => None
  }

  function Take(c: Config, b: seq<Byte>): Option<seq<Byte>> {
    if && 9 <= c.bLength <= |b| && b[0] == c.bLength && b[1] == DT_CONFIG && Word(b[2], b[3]) == c.wTotalLength
       && c.bNumInterfaces == |c.interfaces| <= b[4] && b[5] == c.bConfigurationValue && b[6] == c.iConfiguration
       && b[7] == c.bmAttributes && b[8] == c.maxPower && c.extra <= b[c.bLength..]
    then TakeInterfaces(c.interfaces, b[c.bLength..][|c.extra|..])
    else None
  }

  lemma EndpointKept(b: seq<Byte>)
    requires ParseEndpoint(b).Parsed?
    ensures var r := ParseEndpoint(b); Stuck(r.rest) || (TakeEndpoint(r.value, b) == Some(r.rest) && AtStop(r.rest))
  {
    SkipStops(b[b[0]..]);
    hide SkipUnknown;
  }

  lemma StuckEndpoints(b: seq<Byte>, n: nat)
    requires Stuck(b)
    ensures ParseEndpoints(b, n) == Parsed([], b)
  {
  }

  lemma {:induction false} EndpointsKept(b: seq<Byte>, n: nat)
    requires ParseEndpoints(b, n).Parsed? && AtStop(b)
    ensures var r := ParseEndpoints(b, n); Stuck(r.rest) || (TakeEndpoints(r.value, b) == Some(r.rest) && AtStop(r.rest))
    decreases n
  {
    hide ParseEndpoint, TakeEndpoint, Stuck, AtStop;
    if n > 0 && ParseEndpoint(b).Parsed? {
      var e := ParseEndpoint(b);
      EndpointKept(b);
      if Stuck(e.rest) {
        StuckEndpoints(e.rest, n - 1);
      } else {
        EndpointsKept(e.rest, n - 1);
        var es := ParseEndpoints(e.rest, n - 1).value;
        assert ([e.value] + es)[1..] == es;
      }
    }
  }

  lemma AltKept(b: seq<Byte>)
    requires |b| >= 9 && ParseAlt(b).Alt?
    ensures var r := ParseAlt(b); Stuck(r.rest) || (TakeAlt(r.alt, b) == Some(r.rest) && AtStop(r.rest) && !r.cut)
  {
    var q := b[b[0]..];
    SkipStops(q);
    var n := SkipUnknown(q).n;
    if SkipUnknown(q).Skipped? {
      EndpointsKept(q[n..], b[4]);
    }
    hide SkipUnknown, ParseEndpoints, TakeEndpoints, Stuck, AtStop;
  }

  lemma StuckInterface(b: seq<Byte>, number: int)
    requires Stuck(b) && -1 <= number < 256
    ensures ParseInterface(b, number) == Parsed([], b)
  {
  }

  lemma {:induction false} InterfaceKept(b: seq<Byte>, number: int)
    requires -1 <= number < 256 && ParseInterface(b, number).Parsed? && AtStop(b)
    ensures var r := ParseInterface(b, number); Stuck(r.rest) || (TakeInterface(r.value, b) == Some(r.rest) && AtStop(r.rest))
    decreases |b|
  {
    hide ParseAlt, TakeAlt, Stuck, AtStop, IsAlternate;
    if |b| >= 9 && ParseAlt(b).Alt? {
      AltKept(b);
      var a := ParseAlt(b);
      var number' := if number == -1 then a.alt.bInterfaceNumber else number;
      if a.cut || !IsAlternate(a.rest, number') {
        assert ParseInterface(b, number) == Parsed([a.alt], a.rest);
      } else if Stuck(a.rest) {
        StuckInterface(a.rest, number');
      } else {
        InterfaceKept(a.rest, number');
        var alts := ParseInterface(a.rest, number').value;
        assert ([a.alt] + alts)[1..] == alts;
      }
    }
  }

  lemma StuckBody(b: seq<Byte>, n: nat)
    requires Stuck(b)
    ensures ParseBody(b, n) == Parsed(Body([], []), b)
  {
    assert b[0..] == b;
  }

  // After one interface no loop takes anything before the next, so no second run of unknown
  // descriptors is ever dropped.
  lemma {:induction false} InterfacesKept(b: seq<Byte>, n: nat)
    requires ParseBody(b, n).Parsed? && AtStop(b)
    ensures var r := ParseBody(b, n);
            Stuck(r.rest) || (r.value.extra == [] && TakeInterfaces(r.value.interfaces, b) == Some(r.rest))
    decreases n
  {
    hide ParseInterface, TakeInterface, Stuck;
    assert b[0..] == b && b[..0] == [];
    if n > 0 {
      var i := ParseInterface(b, -1);
      InterfaceKept(b, -1);
      if Stuck(i.rest) {
        StuckBody(i.rest, n - 1);
      } else if i.value != [] {
        InterfacesKept(i.rest, n - 1);
        var ifs := ParseBody(i.rest, n - 1).value.interfaces;
        assert ([i.value] + ifs)[1..] == ifs;
      }
    }
  }

  lemma BodyKept(b: seq<Byte>, n: nat)
    ensures var r := ParseBody(b, n);
            r.Parsed? ==>
              Stuck(r.rest) || (r.value.extra <= b && TakeInterfaces(r.value.interfaces, b[|r.value.extra|..]) == Some(r.rest))
  {
    if n == 0 {
      assert b[0..] == b;
    } else if ParseBody(b, n).Parsed? {
      SkipStops(b);
      var k := SkipUnknown(b);
      if k.Skipped? {
        var q := b[k.n..];
        InterfacesKept(q, n);
        assert q[0..] == q && q[..0] == [];
        hide ParseInterface, TakeInterfaces, Stuck, SkipUnknown;
        assert ParseBody(b, n).rest == ParseBody(q, n).rest;
      }
    }
  }

  // For every input that is accepted: unless the bytes left begin with a descriptor that is cut
  // off, the bytes taken are the descriptors of the tree, one after the other, none lost.
  lemma NothingLost(b: seq<Byte>)
    ensures var r := ParseConfiguration(b);
            r.Parsed? ==> Stuck(r.rest) || Take(r.value, b) == Some(r.rest)
  {
    if ParseConfiguration(b).Parsed? {
      BodyKept(b[b[0]..], b[4]);
      hide ParseBody, TakeInterfaces, Stuck;
    }
  }

  // What is left is the end of the input: the parsers read inside it and count every byte.
  predicate EndOf(r: seq<Byte>, b: seq<Byte>) { |r| <= |b| && b[|b| - |r|..] == r }

  lemma EndOfEnd(r: seq<Byte>, k: nat, b: seq<Byte>)
    requires k <= |b| && EndOf(r, b[k..])
    ensures EndOf(r, b)
  {
  }

  lemma EndpointEnds(b: seq<Byte>)
    ensures ParseEndpoint(b).Parsed? ==> EndOf(ParseEndpoint(b).rest, b)
  {
    if ParseEndpoint(b).Parsed? {
      EndOfEnd(ParseEndpoint(b).rest, b[0], b);
    }
  }

  lemma {:induction false} EndpointsEnd(b: seq<Byte>, n: nat)
    ensures ParseEndpoints(b, n).Parsed? ==> EndOf(ParseEndpoints(b, n).rest, b)
    decreases n
  {
    hide ParseEndpoint;
    if n > 0 && ParseEndpoint(b).Parsed? {
      var rest := ParseEndpoint(b).rest;
      EndpointEnds(b);
      EndpointsEnd(rest, n - 1);
      if ParseEndpoints(rest, n - 1).Parsed? {
        EndOfEnd(ParseEndpoints(rest, n - 1).rest, |b| - |rest|, b);
      }
    }
  }

  lemma AltEnds(b: seq<Byte>)
    requires |b| >= 9 && ParseAlt(b).Alt?
    ensures EndOf(ParseAlt(b).rest, b)
  {
    var q := b[b[0]..];
    var n := SkipUnknown(q).n;
    hide SkipUnknown, ParseEndpoints;
    EndpointsEnd(q[n..], b[4]);
    EndOfEnd(ParseAlt(b).rest, n, q);
    EndOfEnd(ParseAlt(b).rest, b[0], b);
  }

  lemma {:induction false} InterfaceEnds(b: seq<Byte>, number: int)
    requires -1 <= number < 256 && ParseInterface(b, number).Parsed?
    ensures EndOf(ParseInterface(b, number).rest, b)
    decreases |b|
  {
    hide ParseAlt, IsAlternate;
    if |b| >= 9 && ParseAlt(b).Alt? {
      var a := ParseAlt(b);
      AltEnds(b);
      var number' := if number == -1 then a.alt.bInterfaceNumber else number;
      if !a.cut && IsAlternate(a.rest, number') {
        InterfaceEnds(a.rest, number');
        EndOfEnd(ParseInterface(a.rest, number').rest, |b| - |a.rest|, b);
      }
    }
  }

  lemma {:induction false} BodyEnds(b: seq<Byte>, n: nat)
    ensures ParseBody(b, n).Parsed? ==> EndOf(ParseBody(b, n).rest, b)
    decreases n
  {
    var k := SkipUnknown(b);
    hide SkipUnknown, ParseInterface;
    if n > 0 && k.Skipped? && ParseBody(b, n).Parsed? {
      var i := ParseInterface(b[k.n..], -1);
      InterfaceEnds(b[k.n..], -1);
      EndOfEnd(i.rest, k.n, b);
      if i.value != [] {
        BodyEnds(i.rest, n - 1);
        EndOfEnd(ParseBody(i.rest, n - 1).rest, |b| - |i.rest|, b);
      }
    }
  }

  lemma BytesConserved(b: seq<Byte>)
    ensures ParseConfiguration(b).Parsed? ==> EndOf(ParseConfiguration(b).rest, b)
  {
    hide ParseBody;
    if ParseConfiguration(b).Parsed? {
      BodyEnds(b[b[0]..], b[4]);
      EndOfEnd(ParseConfiguration(b).rest, b[0], b);
    }
  }

  // ---------------------------------------------------------------- declared and stored endpoints

  // An accepted setting promises as many endpoints as it stores, except in one case: a class-specific
  // descriptor before them is cut off. Then the declared number stays, and the pointer is NULL.
  lemma EndpointsMissingIff(b: seq<Byte>)
    requires |b| >= 9 && ParseAlt(b).Alt?
    ensures var a := ParseAlt(b).alt;
            && |a.endpoints| <= a.bNumEndpoints <= MAX_ENDPOINTS
            && (a.bNumEndpoints != |a.endpoints| <==> b[4] > 0 && SkipUnknown(b[b[0]..]).CutOff?)
            && (a.bNumEndpoints != |a.endpoints| ==> a.endpoints == [] && a.bNumEndpoints == b[4])
  {
    hide SkipUnknown, ParseEndpoints;
  }

  predicate Fits(a: AltSetting) { a.bNumEndpoints == |a.endpoints| }

  // The setting whose descriptor x begins with declares endpoints, and one of the descriptors between it
  // and the first of them is cut off.
  predicate CutBeforeEndpoints(x: seq<Byte>)
    requires |x| >= 9
  {
    x[4] > 0 && x[0] <= |x| && SkipUnknown(x[x[0]..]).CutOff?
  }

  // Where the last setting is read that is stored, for one interface and for all.
  ghost function LastSetting(b: seq<Byte>, number: int): (r: Option<seq<Byte>>)
    requires -1 <= number < 256
    ensures r.Some? ==> |r.value| >= 9
    decreases |b|
  {
    if |b| < 9 || !ParseAlt(b).Alt? then None
    else
      var a := ParseAlt(b);
      var number' := if number == -1 then a.alt.bInterfaceNumber else number;
      var more := if a.cut || !IsAlternate(a.rest, number') then None else LastSetting(a.rest, number');
      if more.Some? then more else Some(b)
  }

  ghost function LastInBody(b: seq<Byte>, n: nat): (r: Option<seq<Byte>>)
    ensures r.Some? ==> |r.value| >= 9
    decreases n
  {
    if n == 0 || !SkipUnknown(b).Skipped? then None
    else
      var q := b[SkipUnknown(b).n..];
      var i := ParseInterface(q, -1);
      if !i.Parsed? || i.value == [] then None
      else
        var more := LastInBody(i.rest, n - 1);
        if more.Some? then more else LastSetting(q, -1)
  }

  lemma CutIsStuck(b: seq<Byte>)
    requires |b| >= 9 && ParseAlt(b).Alt?
    ensures var a := ParseAlt(b);
            && b[0] <= |b| && (a.cut <==> SkipUnknown(b[b[0]..]).CutOff?)
            && (a.cut ==> Stuck(a.rest)) && (!Fits(a.alt) <==> CutBeforeEndpoints(b))
            && (!Fits(a.alt) ==> a.cut && a.alt.endpoints == [] && a.alt.bNumEndpoints == b[4])
  {
    EndpointsMissingIff(b);
    SkipStops(b[b[0]..]);
    hide SkipUnknown, ParseEndpoints;
  }

  lemma {:induction false} InterfaceMissing(b: seq<Byte>, number: int)
    requires -1 <= number < 256 && ParseInterface(b, number).Parsed?
    ensures var r, last := ParseInterface(b, number), LastSetting(b, number);
            && (r.value == [] <==> last == None)
            && (forall j :: 0 <= j < |r.value| - 1 ==> Fits(r.value[j]))
            && (r.value != [] ==>
                  var a := r.value[|r.value| - 1];
                  && (!Fits(a) <==> CutBeforeEndpoints(last.value))
                  && (!Fits(a) ==> Stuck(r.rest) && a.endpoints == [] && a.bNumEndpoints == last.value[4]))
    decreases |b|
  {
    hide ParseAlt, Stuck, IsAlternate, Fits, CutBeforeEndpoints;
    if |b| >= 9 && ParseAlt(b).Alt? {
      CutIsStuck(b);
      var a := ParseAlt(b);
      var number' := if number == -1 then a.alt.bInterfaceNumber else number;
      if !a.cut && IsAlternate(a.rest, number') {
        InterfaceMissing(a.rest, number');
        var alts := ParseInterface(a.rest, number').value;
        assert ParseInterface(b, number).value == [a.alt] + alts;
      }
    }
  }

  // Every stored setting promises as many endpoints as it stores, but for the last one, read at last.
  // That one does exactly if its descriptor declares endpoints and a descriptor between it and the first
  // of them is cut off. Then it stores none, the declared number stays, and the bytes left begin with the
  // descriptor that is cut off.
  ghost predicate OnlyLastMisses(ifs: seq<seq<AltSetting>>, last: Option<seq<Byte>>, rest: seq<Byte>)
    requires last.Some? ==> |last.value| >= 9
  {
    && (ifs == [] <==> last == None) && (forall i :: 0 <= i < |ifs| ==> ifs[i] != [])
    && (forall i, j :: 0 <= i < |ifs| && 0 <= j < |ifs[i]| && (i < |ifs| - 1 || j < |ifs[i]| - 1) ==> Fits(ifs[i][j]))
    && (ifs != [] ==>
          var a := ifs[|ifs| - 1][|ifs[|ifs| - 1]| - 1];
          && (!Fits(a) <==> CutBeforeEndpoints(last.value))
          && (!Fits(a) ==> Stuck(rest) && a.endpoints == [] && a.bNumEndpoints == last.value[4]))
  }

  // One interface in front of the others, whose own last setting misses nothing unless there are none.
  lemma MissesInFront(alts: seq<AltSetting>, x: seq<Byte>, ifs: seq<seq<AltSetting>>, last: Option<seq<Byte>>, rest: seq<Byte>)
    requires |x| >= 9 && (last.Some? ==> |last.value| >= 9) && alts != [] && OnlyLastMisses(ifs, last, rest)
    requires forall j :: 0 <= j < |alts| - 1 ==> Fits(alts[j])
    requires var a := alts[|alts| - 1];
             && (!Fits(a) <==> CutBeforeEndpoints(x))
             && (!Fits(a) ==> ifs == [] && Stuck(rest) && a.endpoints == [] && a.bNumEndpoints == x[4])
    ensures OnlyLastMisses([alts] + ifs, if last.Some? then last else Some(x), rest)
  {
    hide Fits, Stuck, CutBeforeEndpoints;
  }

  lemma {:induction false} BodyMissing(b: seq<Byte>, n: nat)
    requires ParseBody(b, n).Parsed?
    ensures OnlyLastMisses(ParseBody(b, n).value.interfaces, LastInBody(b, n), ParseBody(b, n).rest)
    decreases n
  {
    hide ParseInterface, Stuck, SkipUnknown, Fits, CutBeforeEndpoints, LastSetting;
    if n > 0 && SkipUnknown(b).Skipped? {
      var q := b[SkipUnknown(b).n..];
      var i := ParseInterface(q, -1);
      if i.Parsed? && i.value != [] {
        InterfaceMissing(q, -1);
        BodyMissing(i.rest, n - 1);
        if Stuck(i.rest) { StuckBody(i.rest, n - 1); }
        hide OnlyLastMisses;
        var r := ParseBody(i.rest, n - 1);
        MissesInFront(i.value, LastSetting(q, -1).value, r.value.interfaces, LastInBody(i.rest, n - 1), r.rest);
      }
    }
  }

  // That is so for every configuration that is accepted.
  lemma EndpointsMissingInConfiguration(b: seq<Byte>)
    requires ParseConfiguration(b).Parsed?
    ensures OnlyLastMisses(ParseConfiguration(b).value.interfaces, LastInBody(b[b[0]..], b[4]), ParseConfiguration(b).rest)
  {
    BodyMissing(b[b[0]..], b[4]);
    hide ParseBody, LastInBody, OnlyLastMisses;
  }

  // Such an input: a configuration with one interface that declares two endpoints, and two bytes of
  // a nine-byte class-specific descriptor. It is accepted.
  lemma EndpointsMissingExample()
    ensures var b: seq<Byte> := [9, 2, 20, 0, 1, 1, 0, 0, 0] + [9, 4, 0, 0, 2, 255, 0, 0, 0] + [9, 36];
            var r := ParseConfiguration(b);
            && r.Parsed? && |r.value.interfaces| == 1 && |r.value.interfaces[0]| == 1
            && r.value.interfaces[0][0].bNumEndpoints == 2 && r.value.interfaces[0][0].endpoints == []
  {
    var c: seq<Byte> := [9, 36];
    var i: seq<Byte> := [9, 4, 0, 0, 2, 255, 0, 0, 0] + c;
    var b: seq<Byte> := [9, 2, 20, 0, 1, 1, 0, 0, 0] + i;
    assert b == [9, 2, 20, 0, 1, 1, 0, 0, 0] + [9, 4, 0, 0, 2, 255, 0, 0, 0] + [9, 36];
    assert b[9..] == i && i[9..] == c && c[0..] == c && i[0..] == i;
    assert SkipUnknown(c) == CutOff(0) && SkipUnknown(i) == Skipped(0);
    hide SkipUnknown;
    var a := AltSetting(9, 0, 0, 2, 255, 0, 0, 0, [], []);
    assert ParseAlt(i) == Alt(a, c, true);
    hide ParseAlt;
    assert ParseInterface(i, -1) == Parsed([a], c);
    hide ParseInterface;
    assert ParseBody(c, 0) == Parsed(Body([], []), c);
    assert ParseBody(i, 1) == Prepend([], [a], ParseBody(c, 0));
  }
}
