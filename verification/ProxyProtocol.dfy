/** Writing and recognising PROXY protocol headers (net/proxy_protocol.rs; The PROXY protocol,
    Versions 1 & 2, sections 2.1 and 2.2). */
module ProxyProtocol {
  import opened Primitives
  import opened Wrappers
  import opened ProxyText

  datatype Consumed = NotProxy | Incomplete | Done(src: SocketAddr, dst: SocketAddr, headerLen: nat)

  datatype ParseError = NoCrlf | NotUtf8 | BadLine | BadAddress | BadPort | BadVersion | BadCommand | ShortBlock | BadFamily

  type Verdict = Result<Consumed, ParseError>

  const V2_SIG: seq<Byte> := [0x0d, 0x0a, 0x0d, 0x0a, 0x00, 0x0d, 0x0a, 0x51, 0x55, 0x49, 0x54, 0x0a]

  const V1_TAG := Ascii("PROXY ")

  const CR: Byte := 13
  const LF: Byte := 10

  const V1_LIMIT := 108

  // ---------- writing ----------

  /** The destination a header can carry: of another family than the source, it becomes that
      family's loopback address, with the port kept. */
  function Carried(src: SocketAddr, dst: SocketAddr): SocketAddr {
    match (src.ip, dst.ip)
    case (V4(_), V6(_)) => SocketAddr(V4(LOCALHOST4), dst.port)
    case (V6(_), V4(_)) => SocketAddr(V6(LOCALHOST6), dst.port)
    case _ => dst
  }

  function LineV1(src: SocketAddr, dst: SocketAddr, t: Text): string {
    var (family, dstIp) :=
      match (src.ip, dst.ip)
      case (V4(_), V4(b)) => ("TCP4", ShowV4(b))
      case (V6(_), V6(b)) => ("TCP6", t.showV6(b))
      case (V4(_), V6(_)) => ("TCP4", "127.0.0.1")
      case (V6(_), V4(_)) => ("TCP6", "::1");
    "PROXY" + " " + (family + " " + (ShowIp(src.ip, t) + " " + (dstIp + " " + (Dec(src.port) + " " + Dec(dst.port)))))
  }

  function HeaderV1(src: SocketAddr, dst: SocketAddr, t: Text): seq<Byte> {
    Ascii(LineV1(src, dst, t)) + [CR, LF]
  }

  function BigEndian(n: Port): (b: seq<Byte>)
    ensures |b| == 2
  {
    [n / 256, n % 256]
  }

  function Octets(ip: Ip): seq<Byte> {
    match ip case V4(a) => [a.a, a.b, a.c, a.d] case V6(a) => a
  }

  function AddressBlock(src: SocketAddr, dst: SocketAddr): seq<Byte> {
    Octets(src.ip) + Octets(Carried(src, dst).ip) + BigEndian(src.port) + BigEndian(dst.port)
  }

  function HeaderV2(src: SocketAddr, dst: SocketAddr): seq<Byte> {
    V2_SIG + [0x21, if src.ip.V4? then 0x11 else 0x21]
    + BigEndian(if src.ip.V4? then 12 else 36) + AddressBlock(src, dst)
  }

  /** build_v2 pushes the header together piece by piece, family by family. */
  method BuildV2(src: SocketAddr, dst: SocketAddr) returns (out: seq<Byte>)
    ensures out == HeaderV2(src, dst)
  {
    out := V2_SIG;
    out := out + [0x21];
    match (src.ip, dst.ip) {
      case (V4(s), V4(d)) =>
        out := out + [0x11];
        out := out + BigEndian(12);
        out := out + Octets(V4(s));
        out := out + Octets(V4(d));
      case (V6(s), V6(d)) =>
        out := out + [0x21];
        out := out + BigEndian(36);
        out := out + s;
        out := out + d;
      case (V4(s), _) =>
        out := out + [0x11];
        out := out + BigEndian(12);
        out := out + Octets(V4(s));
        out := out + Octets(V4(LOCALHOST4));
      case (V6(s), _) =>
        out := out + [0x21];
        out := out + BigEndian(36);
        out := out + s;
        out := out + LOCALHOST6;
    }
    out := out + BigEndian(src.port);
    out := out + BigEndian(dst.port);
  }

  // ---------- recognising ----------

  function TryConsume(buf: seq<Byte>, t: Text): Verdict {
    if buf == [] then Ok(Incomplete)
    else if buf[0] == 'P' as int then
      if |buf| < 6 then Ok(if buf <= V1_TAG then Incomplete else NotProxy)
      else if !(V1_TAG <= buf) then Ok(NotProxy)
      else ParseV1(buf, t)
    else if buf[0] == 0x0d then
      if |buf| < 12 then Ok(if buf <= V2_SIG then Incomplete else NotProxy)
      else if !(V2_SIG <= buf) then Ok(NotProxy)
      else ParseV2(buf)
    else Ok(NotProxy)
  }

  function FindCrlf(buf: seq<Byte>): (r: Option<nat>)
    ensures r.Some? ==> r.value + 2 <= |buf|
  {
    if |buf| < 2 then None
    else if buf[0] == CR && buf[1] == LF then Some(0)
    else match FindCrlf(buf[1..]) case Some(i) => Some(i + 1) case None => None
  }

  function ParseV1(buf: seq<Byte>, t: Text): Verdict {
    match FindCrlf(buf)
    case None => if |buf| >= V1_LIMIT then Err(NoCrlf) else Ok(Incomplete)
    case Some(end) =>
      match t.utf8(buf[..end])
      case None => Err(NotUtf8)
      case Some(line) => ParseLine(Words(line), end + 2, t)
  }

  function ParseLine(parts: seq<string>, headerLen: nat, t: Text): Verdict {
    if |parts| >= 2 && parts[1] == "UNKNOWN" then Ok(Done(UNSPECIFIED, UNSPECIFIED, headerLen))
    else if |parts| < 6 then Err(BadLine)
    else
      match (ReadIp(parts[2], t), ReadIp(parts[3], t))
      case (Some(src), Some(dst)) =>
        (match (ReadPort(parts[4]), ReadPort(parts[5]))
         case (Some(sp), Some(dp)) => Ok(Done(SocketAddr(src, sp), SocketAddr(dst, dp), headerLen))
         case _ => Err(BadPort))
      case _ => Err(BadAddress)
  }

  function ReadBigEndian(hi: Byte, lo: Byte): Port {
    hi * 256 + lo
  }

  function ParseV2(buf: seq<Byte>): Verdict {
    if |buf| < 16 then Ok(Incomplete)
    else if buf[12] / 16 != 0x02 then Err(BadVersion)
    else
      var total := 16 + ReadBigEndian(buf[14], buf[15]);
      if |buf| < total then Ok(Incomplete)
      else if buf[12] % 16 == 0x00 then Ok(Done(UNSPECIFIED, UNSPECIFIED, total))
      else if buf[12] % 16 != 0x01 then Err(BadCommand)
      else ParseBlock(buf[13], buf[16..total], total)
  }

  function ParseBlock(family: Byte, addr: seq<Byte>, total: nat): Verdict {
    if family == 0x11 then
      if |addr| < 12 then Err(ShortBlock)
      else Ok(Done(SocketAddr(V4(Ip4(addr[0], addr[1], addr[2], addr[3])), ReadBigEndian(addr[8], addr[9])),
                   SocketAddr(V4(Ip4(addr[4], addr[5], addr[6], addr[7])), ReadBigEndian(addr[10], addr[11])), total))
    else if family == 0x21 then
      if |addr| < 36 then Err(ShortBlock)
      else Ok(Done(SocketAddr(V6(addr[0..16]), ReadBigEndian(addr[32], addr[33])),
                   SocketAddr(V6(addr[16..32]), ReadBigEndian(addr[34], addr[35])), total))
    else Err(BadFamily)
  }

  // ---------- version 2 ----------

  lemma BlockReadsBack(src: SocketAddr, dst: SocketAddr, total: nat)
    ensures |AddressBlock(src, dst)| == if src.ip.V4? then 12 else 36
    ensures ParseBlock(if src.ip.V4? then 0x11 else 0x21, AddressBlock(src, dst), total)
         == Ok(Done(src, Carried(src, dst), total))
  {
    var block := AddressBlock(src, dst);
    var d := Carried(src, dst);
    if src.ip.V6? {
      assert block[0..16] == src.ip.v6;
      assert block[16..32] == d.ip.v6;
      assert block[32..] == BigEndian(src.port) + BigEndian(dst.port);
      assert block[32] == block[32..][0] && block[33] == block[32..][1];
      assert block[34] == block[32..][2] && block[35] == block[32..][3];
    }
  }

  /** Whatever follows a version 2 header, parsing gives back its addresses and exact length. */
  lemma RoundTripV2(src: SocketAddr, dst: SocketAddr, rest: seq<Byte>, t: Text)
    ensures TryConsume(HeaderV2(src, dst) + rest, t) == Ok(Done(src, Carried(src, dst), |HeaderV2(src, dst)|))
  {
    hide ParseBlock, AddressBlock;
    var h := HeaderV2(src, dst);
    var buf := h + rest;
    assert V2_SIG <= buf;
    BlockReadsBack(src, dst, |h|);
    assert buf[16..|h|] == AddressBlock(src, dst);
  }

  /** Every strict prefix of a version 2 header is incomplete. */
  lemma PrefixV2IsIncomplete(src: SocketAddr, dst: SocketAddr, k: nat, t: Text)
    requires k < |HeaderV2(src, dst)|
    ensures TryConsume(HeaderV2(src, dst)[..k], t) == Ok(Incomplete)
  {
    var h := HeaderV2(src, dst);
    assert h[..12] == V2_SIG;
    if 0 < k < 12 {
      assert h[..k] == V2_SIG[..k];
    } else if k >= 12 {
      assert h[..k][..12] == V2_SIG;
    }
  }

  // ---------- version 1 ----------

  lemma {:induction false} CrlfAfterText(a: seq<Byte>, rest: seq<Byte>)
    requires CR !in a
    ensures FindCrlf(a + [CR, LF] + rest) == Some(|a|)
    ensures FindCrlf(a) == None && FindCrlf(a + [CR]) == None
  {
    if a == [] {
      assert a + [CR, LF] + rest == [CR, LF] + rest;
      assert a + [CR] == [CR];
    } else {
      CrlfAfterText(a[1..], rest);
      assert (a + [CR, LF] + rest)[1..] == a[1..] + [CR, LF] + rest;
      assert (a + [CR])[1..] == a[1..] + [CR];
      assert a[0] != CR;
    }
  }

  lemma {:induction false} CrlfStays(buf: seq<Byte>, more: seq<Byte>)
    requires FindCrlf(buf).Some?
    ensures FindCrlf(buf + more) == FindCrlf(buf)
  {
    if !(buf[0] == CR && buf[1] == LF) {
      CrlfStays(buf[1..], more);
      assert (buf + more)[1..] == buf[1..] + more;
    }
  }

  function FamilyOf(src: SocketAddr): string {
    if src.ip.V4? then "TCP4" else "TCP6"
  }

  lemma LineInWords(src: SocketAddr, dst: SocketAddr, t: Text)
    requires Lawful(t)
    ensures LineV1(src, dst, t)
         == "PROXY" + " " + (FamilyOf(src) + " " + (ShowIp(src.ip, t) + " " + (ShowIp(Carried(src, dst).ip, t) + " "
            + (Dec(src.port) + " " + Dec(dst.port)))))
  {
    LoopbackTexts(t);
    hide Dec, ShowV4;
  }

  /** The line of a header is printable, at most 102 characters, and splits into its six words. */
  lemma LineV1Facts(src: SocketAddr, dst: SocketAddr, t: Text)
    requires Lawful(t)
    ensures var line := LineV1(src, dst, t);
            && |line| <= 102 && "PROXY " <= line && Printable(line)
            && Words(line) == ["PROXY", FamilyOf(src), ShowIp(src.ip, t), ShowIp(Carried(src, dst).ip, t), Dec(src.port), Dec(dst.port)]
  {
    hide Words, ShowIp, Dec, LineV1;
    var srcIp := ShowIp(src.ip, t);
    var dstIp := ShowIp(Carried(src, dst).ip, t);
    LineInWords(src, dst, t);
    IpIsWord(src.ip, t);
    IpIsWord(Carried(src, dst).ip, t);
    IpReadsBack(src.ip, t);
    IpReadsBack(Carried(src, dst).ip, t);
    PortIsWord(src.port);
    PortIsWord(dst.port);
    hide Lawful;
    SixWords("PROXY", FamilyOf(src), srcIp, dstIp, Dec(src.port), Dec(dst.port));
    SixWordsArePrintable("PROXY", FamilyOf(src), srcIp, dstIp, Dec(src.port), Dec(dst.port));
  }

  lemma PortIsWord(p: Port)
    ensures IsWord(Dec(p)) && Printable(Dec(p)) && |Dec(p)| <= 5
  {
    PortReadsBack(p);
    assert forall c <- Dec(p) :: IsDigit(c);
  }

  /** A printable line with a line end is taken up to there, whatever follows. */
  lemma LineIsTaken(line: string, rest: seq<Byte>, t: Text)
    requires Lawful(t) && Printable(line) && "PROXY " <= line
    ensures var buf := Ascii(line) + [CR, LF] + rest;
            TryConsume(buf, t) == ParseLine(Words(line), |line| + 2, t)
  {
    hide Words, ParseLine, FindCrlf, Printable, TryConsume;
    var buf := Ascii(line) + [CR, LF] + rest;
    PrintableAscii(line);
    CrlfAfterText(Ascii(line), rest);
    assert buf[..|line|] == Ascii(line);
    TagStarts(line);
    TaggedIsV1(Ascii(line), [CR, LF], rest, t);
  }

  lemma TaggedIsV1(a: seq<Byte>, b: seq<Byte>, c: seq<Byte>, t: Text)
    requires V1_TAG <= a
    ensures TryConsume(a + b + c, t) == ParseV1(a + b + c, t)
  {
    hide ParseV1, ParseV2;
    var buf := a + b + c;
    assert buf[0] == V1_TAG[0] && V1_TAG <= buf;
  }

  /** The six words of a header's line give back the addresses it carries. */
  lemma WordsReadBack(src: SocketAddr, dst: SocketAddr, headerLen: nat, t: Text)
    requires Lawful(t)
    ensures ParseLine(["PROXY", FamilyOf(src), ShowIp(src.ip, t), ShowIp(Carried(src, dst).ip, t), Dec(src.port), Dec(dst.port)],
                      headerLen, t)
         == Ok(Done(src, Carried(src, dst), headerLen))
  {
    IpReadsBack(src.ip, t);
    IpReadsBack(Carried(src, dst).ip, t);
    PortReadsBack(src.port);
    PortReadsBack(dst.port);
    hide ReadIp, ReadPort, ShowIp, Dec, Lawful;
  }

  /** Whatever follows a version 1 header, parsing gives back its addresses and exact length. */
  lemma RoundTripV1(src: SocketAddr, dst: SocketAddr, rest: seq<Byte>, t: Text)
    requires Lawful(t)
    ensures TryConsume(HeaderV1(src, dst, t) + rest, t)
         == Ok(Done(src, Carried(src, dst), |HeaderV1(src, dst, t)|))
  {
    hide Words, ParseLine, TryConsume, LineV1, Carried, ShowIp, Dec, Lawful;
    var line := LineV1(src, dst, t);
    LineV1Facts(src, dst, t);
    LineIsTaken(line, rest, t);
    WordsReadBack(src, dst, |line| + 2, t);
    assert |Ascii(line)| == |line|;
  }

  lemma TagStarts(line: string)
    requires "PROXY " <= line
    ensures V1_TAG <= Ascii(line) && |V1_TAG| == 6 && V1_TAG[0] == 'P' as int
  {
  }

  /** Every strict prefix of a version 1 header is incomplete. */
  lemma PrefixV1IsIncomplete(src: SocketAddr, dst: SocketAddr, k: nat, t: Text)
    requires Lawful(t) && k < |HeaderV1(src, dst, t)|
    ensures TryConsume(HeaderV1(src, dst, t)[..k], t) == Ok(Incomplete)
  {
    var line := LineV1(src, dst, t);
    LineV1Facts(src, dst, t);
    var h := HeaderV1(src, dst, t);
    var buf := h[..k];
    TagStarts(line);
    assert V1_TAG <= h;
    PrintableAscii(line);
    if k <= |line| {
      assert buf == Ascii(line)[..k];
      CrlfAfterText(buf, []);
    } else {
      assert buf == Ascii(line) + [CR];
      CrlfAfterText(Ascii(line), []);
    }
    if k >= 6 {
      assert V1_TAG <= buf;
    } else {
      assert buf <= V1_TAG;
    }
  }

  // ---------- verdicts and longer buffers ----------

  /** A header never claims more bytes than the buffer has. */
  lemma HeaderFitsTheBuffer(buf: seq<Byte>, t: Text)
    ensures var v := TryConsume(buf, t); v.Ok? && v.value.Done? ==> 0 < v.value.headerLen <= |buf|
  {
  }

  /** Every verdict but Incomplete, and but the complaint about a line without an end, is final:
      more bytes never change it. In particular Done and NotProxy are. */
  lemma VerdictsAreFinal(buf: seq<Byte>, more: seq<Byte>, t: Text)
    requires TryConsume(buf, t) != Ok(Incomplete) && TryConsume(buf, t) != Err(NoCrlf)
    ensures TryConsume(buf + more, t) == TryConsume(buf, t)
  {
    var all := buf + more;
    assert all[0] == buf[0];
    if buf[0] == 'P' as int {
      if |buf| >= 6 && V1_TAG <= buf {
        CrlfStays(buf, more);
        assert all[..FindCrlf(buf).value] == buf[..FindCrlf(buf).value];
      }
    } else if buf[0] == 0x0d {
      if |buf| >= 12 && V2_SIG <= buf {
        var total := 16 + ReadBigEndian(buf[14], buf[15]);
        if |buf| >= total {
          assert all[16..total] == buf[16..total];
        }
      }
    }
  }

  /** The complaint about a missing line end is not: the same bytes followed by a line end can
      still make a header. */
  lemma NoCrlfIsNotFinal(t: Text) returns (buf: seq<Byte>)
    requires Lawful(t)
    ensures TryConsume(buf, t) == Err(NoCrlf)
    ensures TryConsume(buf + [CR, LF], t) == Ok(Done(UNSPECIFIED, UNSPECIFIED, |buf + [CR, LF]|))
  {
    hide Words, Lawful, TryConsume;
    var pad := seq(100, _ => 'x');
    assert pad[0] == 'x';
    var line := "PROXY" + " " + ("UNKNOWN" + " " + pad);
    FirstWord("PROXY", "UNKNOWN" + " " + pad);
    FirstWord("UNKNOWN", pad);
    assert line[..6] == "PROXY ";
    UnknownLine(line, t);
    buf := Ascii(line);
  }

  lemma {:induction false} LineEndIsFound(buf: seq<Byte>)
    ensures FindCrlf(buf + [CR, LF]).Some?
  {
    var all := buf + [CR, LF];
    if buf != [] {
      LineEndIsFound(buf[1..]);
      assert all[1..] == buf[1..] + [CR, LF];
    }
  }

  /** A line end settles a version 1 header that wants one. */
  lemma LineEndSettles(buf: seq<Byte>, t: Text)
    requires |buf| >= 6 && V1_TAG <= buf
    ensures var v := TryConsume(buf + [CR, LF], t); v != Ok(Incomplete) && v != Err(NoCrlf)
  {
    var all := buf + [CR, LF];
    LineEndIsFound(buf);
    assert V1_TAG <= all && all[0] == V1_TAG[0] == 'P' as int;
    var end := FindCrlf(all).value;
    if t.utf8(all[..end]).Some? {
      LineSettles(Words(t.utf8(all[..end]).value), end + 2, t);
    }
  }

  lemma LineSettles(parts: seq<string>, headerLen: nat, t: Text)
    ensures var v := ParseLine(parts, headerLen, t); v != Ok(Incomplete) && v != Err(NoCrlf)
  {
  }

  /** Enough zeros settle everything but a version 1 header that has its tag. */
  lemma ZerosSettle(buf: seq<Byte>, zeros: seq<Byte>, t: Text)
    requires |zeros| >= 16 + 65536 && forall z <- zeros :: z == 0
    requires !(V1_TAG <= buf)
    ensures TryConsume(buf + zeros, t) != Ok(Incomplete)
  {
    var all := buf + zeros;
    if |buf| < 6 && all[0] == 'P' as int {
      assert all[|buf|] == 0 && V1_TAG == all[..6] ==> V1_TAG[|buf|] == 0;
    }
    hide ParseV1;
    assert V1_TAG <= all ==> V1_TAG == all[..6];
  }

  /** A verdict stands whatever follows exactly when it is neither Incomplete nor the complaint
      about a line without an end. */
  lemma FinalIff(buf: seq<Byte>, t: Text)
    ensures (forall more :: TryConsume(buf + more, t) == TryConsume(buf, t))
            <==> TryConsume(buf, t) != Ok(Incomplete) && TryConsume(buf, t) != Err(NoCrlf)
  {
    var v := TryConsume(buf, t);
    if v != Ok(Incomplete) && v != Err(NoCrlf) {
      forall more ensures TryConsume(buf + more, t) == v {
        VerdictsAreFinal(buf, more, t);
      }
    } else if V1_TAG <= buf {
      LineEndSettles(buf, t);
    } else {
      OnlyLinesWantAnEnd(buf, t);
      ZerosSettle(buf, seq(16 + 65536, _ => 0), t);
    }
  }

  lemma OnlyLinesWantAnEnd(buf: seq<Byte>, t: Text)
    ensures TryConsume(buf, t) == Err(NoCrlf) ==> V1_TAG <= buf
  {
  }

  lemma UnknownLine(line: string, t: Text)
    requires Lawful(t) && |line| >= V1_LIMIT && Printable(line) && "PROXY " <= line
    requires |Words(line)| >= 2 && Words(line)[1] == "UNKNOWN"
    ensures TryConsume(Ascii(line), t) == Err(NoCrlf)
    ensures TryConsume(Ascii(line) + [CR, LF], t) == Ok(Done(UNSPECIFIED, UNSPECIFIED, |Ascii(line) + [CR, LF]|))
  {
    hide Words;
    PrintableAscii(line);
    TagStarts(line);
    CrlfAfterText(Ascii(line), []);
    var buf := Ascii(line) + [CR, LF];
    assert buf == Ascii(line) + [CR, LF] + [];
    assert buf[..|line|] == Ascii(line);
    assert V1_TAG <= buf;
  }

  // ---------- byte by byte ----------

  /** A version 2 header between addresses of one family, in full; a destination of another family is
      replaced by the loopback address of the source's. */
  lemma HeaderV2InFull(src: SocketAddr, dst: SocketAddr)
    ensures var sig := [0x0D, 0x0A, 0x0D, 0x0A, 0x00, 0x0D, 0x0A, 0x51, 0x55, 0x49, 0x54, 0x0A];
            var ports := [src.port / 256, src.port % 256, dst.port / 256, dst.port % 256];
            match (src.ip, dst.ip)
            case (V4(s), V4(d)) =>
              HeaderV2(src, dst) == sig + [0x21, 0x11, 0, 12, s.a, s.b, s.c, s.d, d.a, d.b, d.c, d.d] + ports
            case (V6(s), V6(d)) => HeaderV2(src, dst) == sig + [0x21, 0x21, 0, 36] + s + d + ports
            case (V4(s), V6(_)) =>
              HeaderV2(src, dst) == sig + [0x21, 0x11, 0, 12, s.a, s.b, s.c, s.d, 127, 0, 0, 1] + ports
            case (V6(s), V4(_)) =>
              HeaderV2(src, dst) == sig + [0x21, 0x21, 0, 36] + s + [0, 0, 0, 0, 0, 0, 0, 0, 0, 0, 0, 0, 0, 0, 0, 1] + ports
  {
  }

  lemma JoinedLine(family: string, a: string, b: string, p: string, q: string)
    ensures "PROXY" + " " + (family + " " + (a + " " + (b + " " + (p + " " + q))))
         == "PROXY " + family + " " + a + " " + b + " " + p + " " + q
  {
    assert "PROXY" + " " == "PROXY ";
    assert a + " " + (b + " " + (p + " " + q)) == a + " " + b + " " + p + " " + q;
    assert family + " " + (a + " " + b + " " + p + " " + q) == family + " " + a + " " + b + " " + p + " " + q;
    assert "PROXY " + (family + " " + a + " " + b + " " + p + " " + q) == "PROXY " + family + " " + a + " " + b + " " + p + " " + q;
  }

  /** A version 1 header, in full. */
  lemma HeaderV1InFull(src: SocketAddr, dst: SocketAddr, t: Text)
    ensures var (family, a, b) :=
              match (src.ip, dst.ip)
              case (V4(s), V4(d)) => ("TCP4", ShowV4(s), ShowV4(d))
              case (V6(s), V6(d)) => ("TCP6", t.showV6(s), t.showV6(d))
              case (V4(s), V6(_)) => ("TCP4", ShowV4(s), "127.0.0.1")
              case (V6(s), V4(_)) => ("TCP6", t.showV6(s), "::1");
            HeaderV1(src, dst, t)
            == Ascii("PROXY " + family + " " + a + " " + b + " " + Dec(src.port) + " " + Dec(dst.port)) + [13, 10]
  {
    hide Dec, ShowV4, Ascii;
    var (family, a, b) :=
      match (src.ip, dst.ip)
      case (V4(s), V4(d)) => ("TCP4", ShowV4(s), ShowV4(d))
      case (V6(s), V6(d)) => ("TCP6", t.showV6(s), t.showV6(d))
      case (V4(s), V6(_)) => ("TCP4", ShowV4(s), "127.0.0.1")
      case (V6(s), V4(_)) => ("TCP6", t.showV6(s), "::1");
    JoinedLine(family, a, b, Dec(src.port), Dec(dst.port));
  }

  /** Four numbers and the dots between them, and no leading zeros. */
  lemma AddressInFull()
    ensures ShowV4(Ip4(192, 0, 2, 10)) == "192.0.2.10" && Dec(0) == "0" && Dec(443) == "443" && Dec(65535) == "65535"
  {
    assert Dec(1) == "1" && Dec(19) == "19" && Dec(192) == "192" && Dec(2) == "2" && Dec(10) == "10";
    assert Dec(4) == "4" && Dec(44) == "44";
    assert Dec(6) == "6" && Dec(65) == "65" && Dec(655) == "655" && Dec(6553) == "6553";
  }

  /** Not a header: the buffer goes on otherwise than both of the beginnings a header can have. */
  lemma NotProxyIff(buf: seq<Byte>, t: Text)
    ensures var tag: seq<Byte> := [0x50, 0x52, 0x4F, 0x58, 0x59, 0x20];
            var sig: seq<Byte> := [0x0D, 0x0A, 0x0D, 0x0A, 0x00, 0x0D, 0x0A, 0x51, 0x55, 0x49, 0x54, 0x0A];
            TryConsume(buf, t) == Ok(NotProxy)
            <==> !(buf <= tag) && !(tag <= buf) && !(buf <= sig) && !(sig <= buf)
  {
    hide ParseLine, ParseBlock, Words;
    TagBytes();
    var tag, sig := V1_TAG, V2_SIG;
    PrefixFacts(buf, tag);
    PrefixFacts(buf, sig);
    hide ParseV1, ParseV2;
    V1OrNot(buf, t);
  }

  lemma PrefixFacts(buf: seq<Byte>, mark: seq<Byte>)
    requires mark != []
    ensures buf <= mark && buf != [] ==> buf[0] == mark[0]
    ensures mark <= buf ==> buf != [] && buf[0] == mark[0]
    ensures buf <= mark && |buf| >= |mark| ==> mark <= buf
    ensures mark <= buf ==> |buf| >= |mark|
  {
  }

  /** A buffer that has one of the two beginnings in full is taken as a header. */
  lemma V1OrNot(buf: seq<Byte>, t: Text)
    ensures ParseV1(buf, t) != Ok(NotProxy) && ParseV2(buf) != Ok(NotProxy)
  {
    hide Words, ReadIp, ReadPort, FindCrlf;
  }

  lemma TagBytes()
    ensures V1_TAG == [0x50, 0x52, 0x4F, 0x58, 0x59, 0x20]
  {
  }

  /** A number in two bytes. */
  function Pair(hi: int, lo: int): int {
    hi * 256 + lo
  }

  /** What is made of a buffer that starts like a version 2 header, in full. A LOCAL header stands for no
      address; a longer block than its family needs is skipped. */
  lemma VerdictV2(buf: seq<Byte>, t: Text)
    requires |buf| >= 16 && [0x0D, 0x0A, 0x0D, 0x0A, 0x00, 0x0D, 0x0A, 0x51, 0x55, 0x49, 0x54, 0x0A] <= buf
    ensures var total := 16 + Pair(buf[14], buf[15]);
            TryConsume(buf, t)
            == if !(0x20 <= buf[12] <= 0x2F) then Err(BadVersion)
               else if |buf| < total then Ok(Incomplete)
               else if buf[12] == 0x20 then
                 Ok(Done(SocketAddr(V4(Ip4(0, 0, 0, 0)), 0), SocketAddr(V4(Ip4(0, 0, 0, 0)), 0), total))
               else if buf[12] != 0x21 then Err(BadCommand)
               else if buf[13] == 0x11 then
                 if total < 28 then Err(ShortBlock)
                 else Ok(Done(SocketAddr(V4(Ip4(buf[16], buf[17], buf[18], buf[19])), Pair(buf[24], buf[25])),
                              SocketAddr(V4(Ip4(buf[20], buf[21], buf[22], buf[23])), Pair(buf[26], buf[27])), total))
               else if buf[13] == 0x21 then
                 if total < 52 then Err(ShortBlock)
                 else Ok(Done(SocketAddr(V6(buf[16..32]), Pair(buf[48], buf[49])),
                              SocketAddr(V6(buf[32..48]), Pair(buf[50], buf[51])), total))
               else Err(BadFamily)
  {
    var total := 16 + Pair(buf[14], buf[15]);
    assert V2_SIG <= buf && buf[0] == 0x0D;
    if |buf| >= total {
      var addr := buf[16..total];
      assert forall i :: 0 <= i < |addr| ==> addr[i] == buf[16 + i];
      if total >= 52 {
        assert addr[0..16] == buf[16..32] && addr[16..32] == buf[32..48];
      }
    }
  }

  /** Where the first line end is. */
  predicate FirstLineEnd(buf: seq<Byte>, i: nat) {
    i + 2 <= |buf| && buf[i] == 13 && buf[i + 1] == 10 && forall k :: 0 <= k < i ==> !(buf[k] == 13 && buf[k + 1] == 10)
  }

  lemma {:induction false} FindsTheFirst(buf: seq<Byte>)
    ensures FindCrlf(buf).Some? ==> FirstLineEnd(buf, FindCrlf(buf).value)
    ensures FindCrlf(buf).None? ==> forall k :: 0 <= k < |buf| - 1 ==> !(buf[k] == 13 && buf[k + 1] == 10)
  {
    if |buf| >= 2 && !(buf[0] == CR && buf[1] == LF) {
      var rest := buf[1..];
      FindsTheFirst(rest);
      assert forall k :: 0 <= k < |rest| ==> rest[k] == buf[k + 1];
      if FindCrlf(rest).Some? {
        var i := FindCrlf(rest).value;
        forall k | 0 <= k < i + 1 ensures !(buf[k] == 13 && buf[k + 1] == 10) {
          if k > 0 {
            assert !(rest[k - 1] == 13 && rest[k] == 10);
          }
        }
      } else {
        forall k | 0 <= k < |buf| - 1 ensures !(buf[k] == 13 && buf[k + 1] == 10) {
          if k > 0 {
            assert !(rest[k - 1] == 13 && rest[k] == 10);
          }
        }
      }
    }
  }

  /** What is made of a buffer that starts like a version 1 header: without a line end it is incomplete
      up to 107 bytes and then an error; with one, the words of the line decide. */
  lemma VerdictV1(buf: seq<Byte>, t: Text, end: nat)
    requires [0x50, 0x52, 0x4F, 0x58, 0x59, 0x20] <= buf
    ensures (forall k :: 0 <= k < |buf| - 1 ==> !(buf[k] == 13 && buf[k + 1] == 10)) ==>
              TryConsume(buf, t) == if |buf| >= 108 then Err(NoCrlf) else Ok(Incomplete)
    ensures FirstLineEnd(buf, end) ==>
              var line := t.utf8(buf[..end]);
              && (line.None? ==> TryConsume(buf, t) == Err(NotUtf8))
              && (line.Some? ==>
                    var w := Words(line.value);
                    TryConsume(buf, t)
                    == if |w| >= 2 && w[1] == "UNKNOWN" then
                         Ok(Done(SocketAddr(V4(Ip4(0, 0, 0, 0)), 0), SocketAddr(V4(Ip4(0, 0, 0, 0)), 0), end + 2))
                       else if |w| < 6 then Err(BadLine)
                       else if ReadIp(w[2], t).None? || ReadIp(w[3], t).None? then Err(BadAddress)
                       else if ReadPort(w[4]).None? || ReadPort(w[5]).None? then Err(BadPort)
                       else Ok(Done(SocketAddr(ReadIp(w[2], t).value, ReadPort(w[4]).value),
                                    SocketAddr(ReadIp(w[3], t).value, ReadPort(w[5]).value), end + 2)))
  {
    TagBytes();
    assert V1_TAG <= buf && buf[0] == 'P' as int;
    FindsTheFirst(buf);
    hide Words, ReadIp, ReadPort, FindCrlf;
    if FirstLineEnd(buf, end) && FindCrlf(buf).Some? {
      FirstIsUnique(buf, FindCrlf(buf).value, end);
    }
  }

  lemma FirstIsUnique(buf: seq<Byte>, i: nat, j: nat)
    requires FirstLineEnd(buf, i) && FirstLineEnd(buf, j)
    ensures i == j
  {
  }
}
