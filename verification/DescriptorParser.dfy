// The parsing functions of libusb-andro/libusb/descriptor.c in place: cursors over the raw bytes, with
// the loops of the C code, proved against the functions of Descriptors.

module DescriptorParser {
  import opened Wrappers
  import opened Descriptors

  const ERROR_IO := -1

  // ---------------------------------------------------------------- usbi_parse_descriptor

  // The number of bytes a format letter takes; letters it does not know take none.
  function Width(c: char): nat {
    match c case 'b' => 1 case 'w' => 2 case 'd' => 4 case 'u' => 16 case _ => 0
  }

  function FormatWidth(fmt: string): nat {
    if fmt == [] then 0 else Width(fmt[0]) + FormatWidth(fmt[1..])
  }

  // Little-endian; a UUID, which is only copied, is shown in the same way.
  function LittleEndian(b: seq<Byte>): nat {
    if b == [] then 0 else b[0] + 256 * LittleEndian(b[1..])
  }

  function Digits(v: nat, n: nat): (b: seq<Byte>)
    ensures |b| == n
  {
    if n == 0 then [] else [v % 256] + Digits(v / 256, n - 1)
  }

  function Fields(fmt: string, b: seq<Byte>): seq<nat>
    requires |b| >= FormatWidth(fmt)
  {
    if fmt == [] then []
    else
      var rest := Fields(fmt[1..], b[Width(fmt[0])..]);
      if Width(fmt[0]) == 0 then rest else [LittleEndian(b[..Width(fmt[0])])] + rest
  }

  // What a caller would have to send for the fields to come out as vs.
  function Unfields(fmt: string, vs: seq<nat>): (b: seq<Byte>)
    requires Fit(fmt, vs)
    ensures |b| == FormatWidth(fmt)
  {
    if fmt == [] then []
    else if Width(fmt[0]) == 0 then Unfields(fmt[1..], vs)
    else Digits(vs[0], Width(fmt[0])) + Unfields(fmt[1..], vs[1..])
  }

  function Power(n: nat): nat { if n == 0 then 1 else 256 * Power(n - 1) }

  // One value for each field, small enough for it.
  predicate Fit(fmt: string, vs: seq<nat>) {
    if fmt == [] then vs == []
    else if Width(fmt[0]) == 0 then Fit(fmt[1..], vs)
    else vs != [] && vs[0] < Power(Width(fmt[0])) && Fit(fmt[1..], vs[1..])
  }

  lemma {:induction false} LittleEndianOfDigits(v: nat, n: nat)
    requires v < Power(n)
    ensures LittleEndian(Digits(v, n)) == v
  {
    if n > 0 {
      LittleEndianOfDigits(v / 256, n - 1);
      assert Digits(v, n)[1..] == Digits(v / 256, n - 1);
    }
  }

  lemma UnfieldsOne(fmt: string, vs: seq<nat>)
    requires Fit(fmt, vs) && fmt != []
    ensures var w := Width(fmt[0]);
            if w == 0 then Fit(fmt[1..], vs) && Unfields(fmt, vs) == Unfields(fmt[1..], vs)
            else vs != [] && vs[0] < Power(w) && Fit(fmt[1..], vs[1..])
                 && Unfields(fmt, vs) == Digits(vs[0], w) + Unfields(fmt[1..], vs[1..])
  {
    hide Width, Digits, Power;
  }

  lemma HeadAndTail(d: seq<Byte>, r: seq<Byte>, b: seq<Byte>)
    ensures (d + r + b)[..|d|] == d && (d + r + b)[|d|..] == r + b
  {
  }

  lemma {:induction false} FieldsRoundTrip(fmt: string, vs: seq<nat>, b: seq<Byte>)
    requires Fit(fmt, vs)
    ensures Fields(fmt, Unfields(fmt, vs) + b) == vs
  {
    if fmt != [] {
      var w, x := Width(fmt[0]), Unfields(fmt, vs) + b;
      FieldsOne(fmt, x);
      UnfieldsOne(fmt, vs);
      hide *;
      if w == 0 {
        FieldsRoundTrip(fmt[1..], vs, b);
        assert x[0..] == x;
      } else {
        FieldsRoundTrip(fmt[1..], vs[1..], b);
        LittleEndianOfDigits(vs[0], w);
        HeadAndTail(Digits(vs[0], w), Unfields(fmt[1..], vs[1..]), b);
      }
    }
  }

  lemma LittleEndianExample()
    ensures LittleEndian([1]) == 0x01 && LittleEndian([2, 3]) == 0x0302 && LittleEndian([4, 5, 6, 7]) == 0x07060504
  {
    assert [1 as Byte][1..] == [] && [3 as Byte][1..] == [] && [7 as Byte][1..] == [];
    assert LittleEndian([3]) == 3 && LittleEndian([7]) == 7;
    assert [2, 3][1..] == [3 as Byte] && [6, 7][1..] == [7 as Byte];
    assert LittleEndian([6, 7]) == 0x0706;
    assert [5, 6, 7][1..] == [6 as Byte, 7];
    assert LittleEndian([5, 6, 7]) == 0x070605;
    assert [4, 5, 6, 7][1..] == [5 as Byte, 6, 7];
  }

  lemma WidthsAddUp()
    ensures FormatWidth("d") == 4 && FormatWidth("wd") == 6 && FormatWidth("bwd") == 7
  {
    var d, w, b := "d", "wd", "bwd";
    assert d[0] == 'd' && d[1..] == "" && w[0] == 'w' && w[1..] == d && b[0] == 'b' && b[1..] == w;
  }

  lemma FieldsExample()
    ensures Fields("bwd", [1, 2, 3, 4, 5, 6, 7]) == [0x01, 0x0302, 0x07060504]
  {
    LittleEndianExample();
    hide LittleEndian;
    var b: seq<Byte>, w: seq<Byte>, d: seq<Byte> := [1, 2, 3, 4, 5, 6, 7], [2, 3, 4, 5, 6, 7], [4, 5, 6, 7];
    assert Fields("", []) == [] && FormatWidth("") == 0;
    hide Fields, FormatWidth;
    var fd, fw, fb := "d", "wd", "bwd";
    assert fd[0] == 'd' && fd[1..] == "" && fw[0] == 'w' && fw[1..] == fd && fb[0] == 'b' && fb[1..] == fw;
    WidthsAddUp();
    assert b[1..] == w && b[..1] == [1] && w[..2] == [2, 3] && w[2..] == d && d[..4] == d && d[4..] == [];
    FieldsOne(fd, d);
    FieldsOne(fw, w);
    FieldsOne(fb, b);
  }

  lemma PlacesExample()
    ensures Places("bwd", 0) == [0, 2, 4]
  {
    assert Places("", 8) == [];
    hide Places;
    var d, w, b := "d", "wd", "bwd";
    assert d[0] == 'd' && d[1..] == "" && w[0] == 'w' && w[1..] == d && b[0] == 'b' && b[1..] == w;
    PlacesOne(d, 4);
    PlacesOne(w, 1);
    PlacesOne(b, 0);
  }

  // A byte, a word, a double word and a UUID, and the first three of them in an example.
  lemma WidthsAre()
    ensures Width('b') == 1 && Width('w') == 2 && Width('d') == 4 && Width('u') == 16
    ensures Fields("bwd", [1, 2, 3, 4, 5, 6, 7]) == [0x01, 0x0302, 0x07060504] && Places("bwd", 0) == [0, 2, 4]
  {
    FieldsExample();
    PlacesExample();
    hide Fields, Places;
  }

  // A loop that has found the fields vs already takes the letter at cp.
  lemma FieldsStep(fmt: string, cp: nat, b: seq<Byte>, sp: nat, vs: seq<nat>)
    requires cp < |fmt| && sp <= |b| && |b| - sp == FormatWidth(fmt[cp..])
    ensures var w := Width(fmt[cp]);
            && sp + w <= |b| && |b| - sp - w == FormatWidth(fmt[cp + 1..])
            && vs + Fields(fmt[cp..], b[sp..])
               == (if w == 0 then vs else vs + [LittleEndian(b[sp..sp + w])]) + Fields(fmt[cp + 1..], b[sp + w..])
  {
    var w := Width(fmt[cp]);
    assert fmt[cp..][1..] == fmt[cp + 1..];
    FieldsOne(fmt[cp..], b[sp..]);
    hide Fields, FormatWidth, LittleEndian, Width;
    SliceTwice(b, sp, w);
    assert vs + [] == vs;
  }

  lemma FieldsOne(f: string, b: seq<Byte>)
    requires f != [] && |b| >= FormatWidth(f)
    ensures Width(f[0]) <= |b| && FormatWidth(f) == Width(f[0]) + FormatWidth(f[1..])
    ensures Fields(f, b) == (if Width(f[0]) == 0 then [] else [LittleEndian(b[..Width(f[0])])]) + Fields(f[1..], b[Width(f[0])..])
  {
    hide LittleEndian;
  }

  // Where a field of w bytes goes in the destination when dp is the next free address: words and double
  // words to an even one.
  function Place(w: nat, dp: nat): (a: nat)
    ensures dp <= a <= dp + 1
  {
    if w == 2 || w == 4 then dp + dp % 2 else dp
  }

  function Places(fmt: string, dp: nat): seq<nat> {
    if fmt == [] then []
    else
      var w := Width(fmt[0]);
      if w == 0 then Places(fmt[1..], dp) else [Place(w, dp)] + Places(fmt[1..], Place(w, dp) + w)
  }

  // The fields' widths.
  function Sizes(fmt: string): seq<nat> {
    if fmt == [] then [] else (if Width(fmt[0]) == 0 then [] else [Width(fmt[0])]) + Sizes(fmt[1..])
  }

  // As many places as fields, one behind the other from dp on, and words at even addresses.
  lemma {:induction false} PlacesFit(fmt: string, dp: nat)
    ensures var p, n := Places(fmt, dp), Sizes(fmt);
            && |p| == |n|
            && (forall i :: 0 <= i < |p| ==> dp <= p[i] && (n[i] == 2 || n[i] == 4 ==> p[i] % 2 == 0))
            && (forall i, j :: 0 <= i < j < |p| ==> p[i] + n[i] <= p[j])
  {
    if fmt != [] {
      var w := Width(fmt[0]);
      PlacesFit(fmt[1..], if w == 0 then dp else Place(w, dp) + w);
      hide Width;
    }
  }

  lemma PlacesStep(fmt: string, cp: nat, dp: nat, at: seq<nat>)
    requires cp < |fmt|
    ensures var w := Width(fmt[cp]);
            at + Places(fmt[cp..], dp)
            == if w == 0 then at + Places(fmt[cp + 1..], dp)
               else at + [Place(w, dp)] + Places(fmt[cp + 1..], Place(w, dp) + w)
  {
    var f, w := fmt[cp..], Width(fmt[cp]);
    PlacesOne(f, dp);
    hide *;
    assert f[0] == fmt[cp] && f[1..] == fmt[cp + 1..];
    if w != 0 { Associate(at, [Place(w, dp)], Places(fmt[cp + 1..], Place(w, dp) + w)); }
  }

  lemma PlacesOne(f: string, dp: nat)
    requires f != []
    ensures var w := Width(f[0]);
            Places(f, dp) == if w == 0 then Places(f[1..], dp) else [Place(w, dp)] + Places(f[1..], Place(w, dp) + w)
  {
    hide Width, Place;
  }

  lemma Associate(a: seq<nat>, b: seq<nat>, c: seq<nat>)
    ensures a + (b + c) == a + b + c
  {
  }

  // The loop stands before letter cp, with the bytes from sp on and the destination from dp on to go.
  ghost predicate ReadUpTo(fmt: string, b: seq<Byte>, base: nat, cp: nat, sp: nat, dp: nat, dest: seq<nat>, at: seq<nat>)
    requires |b| == FormatWidth(fmt)
  {
    && cp <= |fmt| && sp <= |b| && |b| - sp == FormatWidth(fmt[cp..])
    && dest + Fields(fmt[cp..], b[sp..]) == Fields(fmt, b) && at + Places(fmt[cp..], dp) == Places(fmt, base)
  }

  lemma ReadNothing(fmt: string, b: seq<Byte>, base: nat)
    requires |b| == FormatWidth(fmt)
    ensures ReadUpTo(fmt, b, base, 0, 0, base, [], [])
  {
    assert fmt[0..] == fmt && b[0..] == b;
    hide Fields, Places, FormatWidth;
  }

  lemma ReadOne(fmt: string, b: seq<Byte>, base: nat, cp: nat, sp: nat, dp: nat, dest: seq<nat>, at: seq<nat>)
    requires |b| == FormatWidth(fmt) && cp < |fmt| && ReadUpTo(fmt, b, base, cp, sp, dp, dest, at)
    ensures var w := Width(fmt[cp]);
            && sp + w <= |b|
            && if w == 0 then ReadUpTo(fmt, b, base, cp + 1, sp, dp, dest, at)
               else ReadUpTo(fmt, b, base, cp + 1, sp + w, Place(w, dp) + w, dest + [LittleEndian(b[sp..sp + w])], at + [Place(w, dp)])
  {
    FieldsStep(fmt, cp, b, sp, dest);
    PlacesStep(fmt, cp, dp, at);
    hide Fields, Places, Place, FormatWidth, LittleEndian, Width;
  }

  lemma ReadAll(fmt: string, b: seq<Byte>, base: nat, sp: nat, dp: nat, dest: seq<nat>, at: seq<nat>)
    requires |b| == FormatWidth(fmt) && ReadUpTo(fmt, b, base, |fmt|, sp, dp, dest, at)
    ensures sp == |b| && dest == Fields(fmt, b) && at == Places(fmt, base)
  {
    assert fmt[|fmt|..] == [];
    assert FormatWidth([]) == 0 && b[|b|..] == [] && Fields([], []) == [] && Places([], dp) == [];
    hide Fields, Places, FormatWidth;
  }

  // usbi_parse_descriptor into a structure at address base: the fields, where they go, and how many bytes
  // were taken. On a little-endian host the two forms of the function are one.
  method ParseDescriptor(source: seq<Byte>, fmt: string, base: nat) returns (dest: seq<nat>, at: seq<nat>, used: nat)
    requires |source| >= FormatWidth(fmt)
    ensures used == FormatWidth(fmt) && dest == Fields(fmt, source[..used]) && at == Places(fmt, base)
  {
    hide Fields, Places, FormatWidth, LittleEndian, ReadUpTo;
    var sp, cp, dp := 0, 0, base;
    dest, at := [], [];
    ghost var b := source[..FormatWidth(fmt)];
    ReadNothing(fmt, b, base);
    while cp < |fmt|
      invariant 0 <= cp <= |fmt| && 0 <= sp <= |b| && ReadUpTo(fmt, b, base, cp, sp, dp, dest, at)
    {
      ReadOne(fmt, b, base, cp, sp, dp, dest, at);
      var w := Width(fmt[cp]);
      hide Width;
      if w > 0 {
        var v := ReadNumber(source, sp, w);
        SameSlice(source, |b|, sp, w);
        dp := Place(w, dp);
        dest, at := dest + [v], at + [dp];
        dp := dp + w;
      }
      sp, cp := sp + w, cp + 1;
    }
    used := sp;
    ReadAll(fmt, b, base, sp, dp, dest, at);
  }

  lemma SameSlice(source: seq<Byte>, n: nat, sp: nat, w: nat)
    requires sp + w <= n <= |source|
    ensures source[..n][sp..sp + w] == source[sp..sp + w]
  {
  }

  lemma SliceTwice(b: seq<Byte>, i: nat, n: nat)
    requires i + n <= |b|
    ensures b[i..][n..] == b[i + n..] && b[i..][..n] == b[i..i + n]
  {
  }

  method ReadNumber(source: seq<Byte>, off: nat, w: nat) returns (v: nat)
    requires off + w <= |source|
    ensures v == LittleEndian(source[off..off + w])
  {
    v := 0;
    var i := w;
    while i > 0
      invariant 0 <= i <= w && v == LittleEndian(source[off + i..off + w])
    {
      assert source[off + i - 1..off + w][1..] == source[off + i..off + w];
      i := i - 1;
      v := source[off + i] + 256 * v;
    }
  }

  // ---------------------------------------------------------------- the loops

  // The loop that skips unknown descriptors, which the C code repeats in each function. Here as
  // below, buffer[off..] are the size bytes that the C function is given.
  method SkipExtras(buffer: seq<Byte>, off: nat) returns (r: Skip)
    requires off <= |buffer|
    ensures r == SkipUnknown(buffer[off..])
  {
    var cur, size := off, |buffer| - off;
    while size >= 2
      invariant off <= cur <= |buffer| && size == |buffer| - cur
      invariant SkipUnknown(buffer[off..]) == Further(cur - off, SkipUnknown(buffer[cur..]))
    {
      var length := buffer[cur];
      if length < 2 {
        return BadLength;
      } else if length > size {
        return CutOff(cur - off);
      }
      if Proper(buffer[cur + 1]) { break; }
      SliceTwice(buffer, cur, length);
      cur, size := cur + length, size - length;
    }
    r := Skipped(cur - off);
  }

  function Further(n: nat, r: Skip): Skip {
    match r case Skipped(m) => Skipped(n + m) case CutOff(m) => CutOff(n + m) case BadLength => BadLength
  }

  // What the int that a C parser returns, and the structure it fills, stand for.
  ghost predicate Returns<T>(code: int, value: T, b: seq<Byte>, r: Parse<T>) {
    match r
    case IoError => code == ERROR_IO
    case Nothing => code == 0
    case Parsed(v, rest) => 0 <= code <= |b| && value == v && rest == b[code..]
  }

  const NO_ENDPOINT := Endpoint(0, 0, 0, 0, 0, 0, 0, [])   // as calloc leaves it

  // the second half of parse_endpoint
  method KeepExtra(buffer: seq<Byte>, begin: nat, e: Endpoint) returns (parsed: int, endpoint: Endpoint)
    requires begin <= |buffer|
    ensures Returns(parsed, endpoint, buffer[begin..], ParseEndpointExtra(e, buffer[begin..]))
    ensures parsed != 0 || !ParseEndpointExtra(e, buffer[begin..]).Nothing?
  {
    var skip := SkipExtras(buffer, begin);
    hide SkipUnknown;
    endpoint := e;
    match skip {
      case BadLength => parsed := ERROR_IO;
      case CutOff(n) => parsed := n;
      case Skipped(n) =>
        SliceTwice(buffer, begin, n);
        endpoint := endpoint.(extra := buffer[begin..begin + n]);
        parsed := n;
    }
  }

  method ReadEndpointHeader(buffer: seq<Byte>, off: nat) returns (e: Endpoint)
    requires off + 7 <= |buffer| && off + buffer[off] <= |buffer|
    ensures e == EndpointHeader(buffer[off..])
  {
    e := Endpoint(buffer[off], buffer[off + 2], buffer[off + 3], Word(buffer[off + 4], buffer[off + 5]), buffer[off + 6], 0, 0, []);
    if buffer[off] >= 9 {
      e := e.(bRefresh := buffer[off + 7], bSynchAddress := buffer[off + 8]);
    }
  }

  // parse_endpoint
  method ParseEndpointAt(buffer: seq<Byte>, off: nat) returns (parsed: int, endpoint: Endpoint)
    requires off <= |buffer|
    ensures Returns(parsed, endpoint, buffer[off..], ParseEndpoint(buffer[off..]))
    ensures ParseEndpoint(buffer[off..]).Parsed? ==> parsed > 0
  {
    hide Word, ParseEndpointExtra, EndpointHeader;
    var size := |buffer| - off;
    endpoint := NO_ENDPOINT;
    if size < 2 {
      parsed := ERROR_IO;
    } else if buffer[off + 1] != DT_ENDPOINT || buffer[off] > size {
      parsed := 0;
    } else if buffer[off] < 7 {
      parsed := ERROR_IO;
    } else {
      var length := buffer[off];
      endpoint := ReadEndpointHeader(buffer, off);
      SliceTwice(buffer, off, length);
      parsed, endpoint := KeepExtra(buffer, off + length, endpoint);
      if parsed >= 0 {
        parsed := parsed + length;
        SliceFurther(buffer, off, length, parsed - length);
      }
    }
  }

  lemma SliceFurther(b: seq<Byte>, off: nat, m: nat, n: nat)
    requires off + m + n <= |b|
    ensures b[off + m..][n..] == b[off..][m + n..]
  {
  }

  // A loop that has collected vs already goes on with r.
  function After<T>(vs: seq<T>, r: Parse<seq<T>>): Parse<seq<T>> {
    match r case Parsed(ws, rest) => Parsed(vs + ws, rest) case _ => r
  }

  lemma EndpointsStep(b: seq<Byte>, n: nat, es: seq<Endpoint>)
    requires n > 0
    ensures match ParseEndpoint(b)
            case IoError => ParseEndpoints(b, n) == IoError
            case Nothing => After(es, ParseEndpoints(b, n)) == Parsed(es, b)
            case Parsed(e, rest) => After(es, ParseEndpoints(b, n)) == After(es + [e], ParseEndpoints(rest, n - 1))
  {
    hide ParseEndpoint;
    match ParseEndpoint(b) {
      case Parsed(e, rest) =>
        var r := ParseEndpoints(rest, n - 1);
        if r.Parsed? { assert es + ([e] + r.value) == (es + [e]) + r.value; }
      case _ => assert es + [] == es;
    }
  }

  lemma AfterNone<T>(r: Parse<seq<T>>)
    ensures After([], r) == r
  {
    if r.Parsed? { assert [] + r.value == r.value; }
  }

  // the endpoint loop of parse_interface
  method ParseEndpointsAt(buffer: seq<Byte>, off: nat, n: nat) returns (parsed: int, endpoint: seq<Endpoint>)
    requires off <= |buffer|
    ensures Returns(parsed, endpoint, buffer[off..], ParseEndpoints(buffer[off..], n))
  {
    hide ParseEndpoint, ParseEndpoints;
    var cur, i := off, 0;
    endpoint := [];
    AfterNone(ParseEndpoints(buffer[off..], n));
    var r := 1;
    while i < n
      invariant 0 <= i <= n && off <= cur <= |buffer|
      invariant ParseEndpoints(buffer[off..], n) == After(endpoint, ParseEndpoints(buffer[cur..], n - i))
    {
      EndpointsStep(buffer[cur..], n - i, endpoint);
      var e;
      r, e := ParseEndpointAt(buffer, cur);
      if r < 0 { return r, endpoint; }
      if r == 0 { break; }
      SliceTwice(buffer, cur, r);
      endpoint, cur, i := endpoint + [e], cur + r, i + 1;
    }
    if i == n { EndpointsDone(buffer[cur..], endpoint); }
    parsed := cur - off;
    SliceTwice(buffer, off, parsed);
  }

  lemma EndpointsDone(b: seq<Byte>, es: seq<Endpoint>)
    ensures After(es, ParseEndpoints(b, 0)) == Parsed(es, b)
  {
    assert es + [] == es;
  }

  // What one turn of parse_interface's loop returns: cut says that it returns from inside.
  ghost predicate ReturnsAlt(code: int, alt: AltSetting, cut: bool, b: seq<Byte>, r: Alt) {
    match r
    case AltError => code == ERROR_IO
    case NoAlt => code == 0
    case Alt(a, rest, c) => 0 <= code <= |b| && alt == a && cut == c && rest == b[code..]
  }

  lemma AltBodyCut(a: AltSetting, b: seq<Byte>)
    requires !SkipUnknown(b).Skipped?
    ensures ParseAltBody(a, b) == if SkipUnknown(b).BadLength? then AltError else Alt(a, b[SkipUnknown(b).n..], true)
  {
  }

  lemma AltBodyWhole(a: AltSetting, b: seq<Byte>, n: nat, es: Parse<seq<Endpoint>>)
    requires SkipUnknown(b) == Skipped(n) && n <= |b| && es == ParseEndpoints(b[n..], a.bNumEndpoints)
    ensures if es.Parsed? then
              |es.value| <= a.bNumEndpoints
              && ParseAltBody(a, b) == Alt(a.(extra := b[..n], endpoints := es.value, bNumEndpoints := |es.value|), es.rest, false)
            else ParseAltBody(a, b) == AltError
  {
  }

  // the second half of such a turn
  method FillAlt(buffer: seq<Byte>, off: nat, a: AltSetting) returns (parsed: int, alt: AltSetting, cut: bool)
    requires off <= |buffer|
    ensures ReturnsAlt(parsed, alt, cut, buffer[off..], ParseAltBody(a, buffer[off..]))
    ensures parsed >= 0 <==> ParseAltBody(a, buffer[off..]).Alt?
  {
    alt := a;
    hide SkipUnknown, ParseEndpoints, ParseAltBody;
    var skip := SkipExtras(buffer, off);
    cut := skip.CutOff?;
    if !skip.Skipped? { AltBodyCut(a, buffer[off..]); }
    if skip.BadLength? {
      parsed := ERROR_IO;
    } else {
      parsed := skip.n;
      if !cut {
        SliceTwice(buffer, off, parsed);
        AltBodyWhole(a, buffer[off..], parsed, ParseEndpoints(buffer[off + parsed..], a.bNumEndpoints));
        var r, es := ParseEndpointsAt(buffer, off + parsed, a.bNumEndpoints);
        if r < 0 {
          parsed := r;
        } else {
          SliceFurther(buffer, off, parsed, r);
          alt := alt.(extra := buffer[off..off + parsed], endpoints := es, bNumEndpoints := |es|);
          parsed := parsed + r;
        }
      }
    }
  }

  method ReadAltHeader(buffer: seq<Byte>, off: nat) returns (a: AltSetting)
    requires off + 9 <= |buffer|
    ensures a == AltHeader(buffer[off..])
    ensures a.bLength == buffer[off] && a.bNumEndpoints == buffer[off + 4] && a.bInterfaceNumber == buffer[off + 2]
  {
    a := AltSetting(buffer[off], buffer[off + 2], buffer[off + 3], buffer[off + 4], buffer[off + 5], buffer[off + 6],
                    buffer[off + 7], buffer[off + 8], [], []);
  }

  // The same, counted from the interface descriptor of the given length.
  method FillAltFrom(buffer: seq<Byte>, off: nat, length: nat, a: AltSetting) returns (parsed: int, alt: AltSetting, cut: bool)
    requires off + length <= |buffer|
    ensures ReturnsAlt(parsed, alt, cut, buffer[off..], ParseAltBody(a, buffer[off + length..]))
    ensures ParseAltBody(a, buffer[off + length..]).Alt? ==> parsed >= length
  {
    hide ParseAltBody;
    parsed, alt, cut := FillAlt(buffer, off + length, a);
    if parsed >= 0 {
      SliceFurther(buffer, off, length, parsed);
      parsed := parsed + length;
    }
  }

  lemma AltCases(b: seq<Byte>, off: nat)
    requires off + 9 <= |b|
    ensures ParseAlt(b[off..]) ==
              if b[off + 1] != DT_INTERFACE then NoAlt
              else if b[off] < 9 then AltError
              else if b[off] > |b| - off then NoAlt
              else if b[off + 4] > MAX_ENDPOINTS then AltError
              else ParseAltBody(AltHeader(b[off..]), b[off + b[off]..])
  {
    hide ParseAltBody, AltHeader;
    if b[off] <= |b| - off { SliceTwice(b, off, b[off]); }
  }

  lemma NoAltReturned(b: seq<Byte>)
    ensures forall alt :: ReturnsAlt(0, alt, false, b, NoAlt) && ReturnsAlt(ERROR_IO, alt, false, b, AltError)
    ensures forall parsed, alt, cut, r :: ReturnsAlt(parsed, alt, cut, b, r) && r.AltError? ==> parsed < 0
  {
  }

  // one turn of parse_interface's loop
  method ParseAltAt(buffer: seq<Byte>, off: nat) returns (parsed: int, alt: AltSetting, cut: bool)
    requires off + 9 <= |buffer|
    ensures ReturnsAlt(parsed, alt, cut, buffer[off..], ParseAlt(buffer[off..]))
    ensures ParseAlt(buffer[off..]).Alt? ==> parsed > 0
  {
    AltCases(buffer, off);
    NoAltReturned(buffer[off..]);
    hide AltHeader, ParseAltBody, ParseAlt, ReturnsAlt;
    var size := |buffer| - off;
    cut := false;
    alt := ReadAltHeader(buffer, off);
    if buffer[off + 1] != DT_INTERFACE {
      parsed := 0;
    } else if alt.bLength < 9 {
      parsed := ERROR_IO;
    } else if alt.bLength > size {
      parsed := 0;
    } else if alt.bNumEndpoints > MAX_ENDPOINTS {
      parsed := ERROR_IO;
    } else {
      parsed, alt, cut := FillAltFrom(buffer, off, alt.bLength, alt);
    }
  }

  function NumberAfter(a: AltSetting, number: int): int { if number == -1 then a.bInterfaceNumber else number }

  lemma InterfaceStep(b: seq<Byte>, number: int, alts: seq<AltSetting>)
    requires |b| >= 9 && -1 <= number < 256
    ensures ParseAlt(b).AltError? ==> ParseInterface(b, number) == IoError
    ensures ParseAlt(b).NoAlt? ==> After(alts, ParseInterface(b, number)) == Parsed(alts, b)
    ensures ParseAlt(b).Alt? && (ParseAlt(b).cut || !IsAlternate(ParseAlt(b).rest, NumberAfter(ParseAlt(b).alt, number))) ==>
              After(alts, ParseInterface(b, number)) == Parsed(alts + [ParseAlt(b).alt], ParseAlt(b).rest)
    ensures ParseAlt(b).Alt? && !(ParseAlt(b).cut || !IsAlternate(ParseAlt(b).rest, NumberAfter(ParseAlt(b).alt, number))) ==>
              After(alts, ParseInterface(b, number))
              == After(alts + [ParseAlt(b).alt], ParseInterface(ParseAlt(b).rest, NumberAfter(ParseAlt(b).alt, number)))
  {
    hide ParseAlt, IsAlternate;
    assert alts + [] == alts;
    match ParseAlt(b) {
      case Alt(a, rest, cut) =>
        var r := ParseInterface(rest, NumberAfter(a, number));
        if !cut && IsAlternate(rest, NumberAfter(a, number)) && r.Parsed? {
          assert alts + ([a] + r.value) == (alts + [a]) + r.value;
        }
      case _ =>
    }
  }

  lemma InterfaceTooShort(b: seq<Byte>, number: int, alts: seq<AltSetting>)
    requires |b| < 9 && -1 <= number < 256
    ensures After(alts, ParseInterface(b, number)) == Parsed(alts, b)
  {
    assert alts + [] == alts;
  }

  // parse_interface
  method ParseInterfaceAt(buffer: seq<Byte>, off: nat) returns (parsed: int, altsetting: seq<AltSetting>)
    requires off <= |buffer|
    ensures Returns(parsed, altsetting, buffer[off..], ParseInterface(buffer[off..], -1))
  {
    hide ParseAlt, ParseInterface, IsAlternate;
    var cur, number: int := off, -1;
    altsetting := [];
    AfterNone(ParseInterface(buffer[off..], -1));
    var going := true;
    while going && |buffer| - cur >= 9
      invariant off <= cur <= |buffer| && -1 <= number < 256
      invariant ParseInterface(buffer[off..], -1)
                == if going then After(altsetting, ParseInterface(buffer[cur..], number)) else Parsed(altsetting, buffer[cur..])
      decreases |buffer| - cur, going
    {
      InterfaceStep(buffer[cur..], number, altsetting);
      var r, a, cut := ParseAltAt(buffer, cur);
      if r < 0 { return r, altsetting; }
      if r == 0 {
        going := false;
      } else {
        SliceTwice(buffer, cur, r);
        altsetting, cur := altsetting + [a], cur + r;
        if number == -1 { number := a.bInterfaceNumber; }
        going := !cut && LooksLikeAlternate(buffer, cur, number);
      }
    }
    if going { InterfaceTooShort(buffer[cur..], number, altsetting); }
    parsed := cur - off;
    SliceTwice(buffer, off, parsed);
  }

  predicate LooksLikeAlternate(buffer: seq<Byte>, cur: nat, number: Byte)
    requires cur <= |buffer|
    ensures LooksLikeAlternate(buffer, cur, number) == IsAlternate(buffer[cur..], number)
  {
    |buffer| - cur >= 9 && buffer[cur + 1] == DT_INTERFACE && buffer[cur + 2] == number
  }

  // ---------------------------------------------------------------- parse_configuration

  // The loop has collected extra and ifs and goes on with r.
  function AfterBody(extra: seq<Byte>, ifs: seq<seq<AltSetting>>, r: Parse<Body>): Parse<Body> {
    match r
    case Parsed(body, rest) => Parsed(Body(if extra != [] then extra else body.extra, ifs + body.interfaces), rest)
    case _ => r
  }

  function Kept(extra: seq<Byte>, more: seq<Byte>): seq<Byte> { if extra != [] then extra else more }

  lemma BodyStep(b: seq<Byte>, n: nat, extra: seq<Byte>, ifs: seq<seq<AltSetting>>, k: nat)
    requires n > 0 && SkipUnknown(b) == Skipped(k) && k <= |b|
    ensures var i := ParseInterface(b[k..], -1);
            && (i.IoError? ==> AfterBody(extra, ifs, ParseBody(b, n)) == IoError)
            && (i.Parsed? && i.value == [] ==>
                  AfterBody(extra, ifs, ParseBody(b, n)) == Parsed(Body(Kept(extra, b[..k]), ifs), b[k..]))
            && (i.Parsed? && i.value != [] ==>
                  AfterBody(extra, ifs, ParseBody(b, n)) == AfterBody(Kept(extra, b[..k]), ifs + [i.value], ParseBody(i.rest, n - 1)))
  {
    hide SkipUnknown, ParseInterface;
    assert ifs + [] == ifs;
    var i := ParseInterface(b[k..], -1);
    if i.Parsed? && i.value != [] && ParseBody(i.rest, n - 1).Parsed? {
      var more := ParseBody(i.rest, n - 1).value.interfaces;
      assert ifs + ([i.value] + more) == (ifs + [i.value]) + more;
    }
  }

  lemma BodyCut(b: seq<Byte>, n: nat, extra: seq<Byte>, ifs: seq<seq<AltSetting>>)
    requires n == 0 || !SkipUnknown(b).Skipped?
    ensures n > 0 && SkipUnknown(b).BadLength? ==> AfterBody(extra, ifs, ParseBody(b, n)) == IoError
    ensures n > 0 && SkipUnknown(b).CutOff? ==> AfterBody(extra, ifs, ParseBody(b, n)) == Parsed(Body(extra, ifs), b[SkipUnknown(b).n..])
    ensures n == 0 ==> AfterBody(extra, ifs, ParseBody(b, n)) == Parsed(Body(extra, ifs), b)
  {
    hide SkipUnknown;
    assert ifs + [] == ifs;
  }

  lemma NothingRead(r: Parse<Body>)
    requires !r.Nothing?
    ensures r == AfterBody([], [], r)
  {
    if r.Parsed? { assert [] + r.value.interfaces == r.value.interfaces; }
  }

  // What the loop returns: the number of bytes left, or an error.
  predicate Leaves(left: int, extra: seq<Byte>, ifs: seq<seq<AltSetting>>, r: Parse<Body>) {
    if r.Parsed? then left == |r.rest| && Body(extra, ifs) == r.value else left == ERROR_IO
  }

  lemma LeavesThese(left: int, extra: seq<Byte>, ifs: seq<seq<AltSetting>>, b: seq<Byte>)
    requires left == |b|
    ensures Leaves(left, extra, ifs, Parsed(Body(extra, ifs), b))
  {
  }

  // one turn of the loop, with n interfaces to go
  method BodyTurn(buffer: seq<Byte>, off: nat, n: nat, extra: seq<Byte>, ifs: seq<seq<AltSetting>>)
    returns (done: bool, left: int, cur: nat, extra': seq<Byte>, ifs': seq<seq<AltSetting>>)
    requires off <= |buffer| && n > 0
    ensures off <= cur <= |buffer|
    ensures done ==> Leaves(left, extra', ifs', AfterBody(extra, ifs, ParseBody(buffer[off..], n)))
    ensures !done ==> AfterBody(extra, ifs, ParseBody(buffer[off..], n)) == AfterBody(extra', ifs', ParseBody(buffer[cur..], n - 1))
  {
    hide SkipUnknown, ParseInterface, ParseBody, AfterBody, Leaves;
    done, left, cur, extra', ifs' := true, ERROR_IO, off, extra, ifs;
    var b := buffer[off..];
    var skip := SkipExtras(buffer, off);
    if !skip.Skipped? {
      BodyCut(b, n, extra, ifs);
      if skip.BadLength? {
        assert Leaves(ERROR_IO, extra', ifs', IoError) by { FailsWith(extra', ifs'); }
        return;
      }
      left := |buffer| - off - skip.n;
      LeavesThese(left, extra, ifs, b[skip.n..]);
      return;
    }
    BodyStep(b, n, extra, ifs, skip.n);
    cur := off + skip.n;
    SliceTwice(buffer, off, skip.n);
    if extra == [] { extra' := buffer[off..cur]; }
    var r, alts := ParseInterfaceAt(buffer, cur);
    if r < 0 {
      FailsWith(extra', ifs');
    } else if r == 0 {
      left := |buffer| - cur;
      LeavesThese(left, extra', ifs', buffer[cur..]);
    } else {
      SliceTwice(buffer, cur, r);
      done, ifs', cur := false, ifs + [alts], cur + r;
    }
  }

  lemma FailsWith(extra: seq<Byte>, ifs: seq<seq<AltSetting>>)
    ensures Leaves(ERROR_IO, extra, ifs, IoError)
  {
  }

  // the loop of parse_configuration; it returns the number of bytes left
  method ParseBodyAt(buffer: seq<Byte>, off: nat, n: nat) returns (left: int, extra: seq<Byte>, ifs: seq<seq<AltSetting>>)
    requires off <= |buffer|
    ensures Leaves(left, extra, ifs, ParseBody(buffer[off..], n))
  {
    hide SkipUnknown, ParseInterface, ParseBody, AfterBody, Leaves;
    var cur, i := off, n;
    left, extra, ifs := ERROR_IO, [], [];
    ghost var all := ParseBody(buffer[off..], n);
    NothingRead(all);
    var done := false;
    while !done && i > 0
      invariant off <= cur <= |buffer|
      invariant if done then Leaves(left, extra, ifs, all) else all == AfterBody(extra, ifs, ParseBody(buffer[cur..], i))
    {
      done, left, cur, extra, ifs := BodyTurn(buffer, cur, i, extra, ifs);
      i := i - 1;
    }
    if !done {
      BodyCut(buffer[cur..], 0, extra, ifs);
      left := |buffer| - cur;
      LeavesThese(left, extra, ifs, buffer[cur..]);
    }
  }

  const NO_CONFIG := Config(0, 0, 0, 0, 0, 0, 0, [], [])

  // parse_configuration
  method ParseConfigurationOf(buffer: seq<Byte>) returns (left: int, config: Config)
    ensures var r := ParseConfiguration(buffer);
            if r.Parsed? then left == |r.rest| && config == r.value else left == ERROR_IO
  {
    config := NO_CONFIG;
    if |buffer| < 9 || buffer[1] != DT_CONFIG || buffer[0] < 9 || buffer[0] > |buffer| || buffer[4] > MAX_INTERFACES {
      left := ERROR_IO;
    } else {
      hide ParseBody;
      var extra, ifs;
      left, extra, ifs := ParseBodyAt(buffer, buffer[0], buffer[4]);
      if left >= 0 {
        config := Config(buffer[0], Word(buffer[2], buffer[3]), |ifs|, buffer[5], buffer[6], buffer[7], buffer[8], ifs, extra);
      }
    }
  }
}
