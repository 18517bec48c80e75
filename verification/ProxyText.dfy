/** Addresses, ports and words as text, as the PROXY protocol's version 1 line uses them. */
module ProxyText {
  import opened Primitives
  import opened Wrappers

  type Port = x: int | 0 <= x < 65536

  datatype Ip4 = Ip4(a: Byte, b: Byte, c: Byte, d: Byte)

  type Ip6 = s: seq<Byte> | |s| == 16 witness seq(16, _ => 0)

  datatype Ip = V4(v4: Ip4) | V6(v6: Ip6)

  datatype SocketAddr = SocketAddr(ip: Ip, port: Port)

  const UNSPECIFIED := SocketAddr(V4(Ip4(0, 0, 0, 0)), 0)

  const LOCALHOST4 := Ip4(127, 0, 0, 1)

  const LOCALHOST6: Ip6 := [0, 0, 0, 0, 0, 0, 0, 0, 0, 0, 0, 0, 0, 0, 0, 1]

  /** The library's text functions that are not modelled: UTF-8, and the text of IPv6 addresses. */
  datatype Text = Text(utf8: seq<Byte> -> Option<string>, showV6: Ip6 -> string, readV6: string -> Option<Ip6>)

  predicate IsAscii(s: string) {
    forall c <- s :: c as int < 128
  }

  predicate IsHexOrColon(c: char) {
    '0' <= c <= ':' || 'a' <= c <= 'f' || c == '.'
  }

  /** ASCII decodes to itself; an IPv6 address prints to at most 39 characters, one of them a
      colon and none of them white space, and reads back. */
  ghost predicate Lawful(t: Text) {
    && (forall s: string :: IsAscii(s) ==> t.utf8(Ascii(s)) == Some(s))
    && (forall a: Ip6 ::
          && t.readV6(t.showV6(a)) == Some(a)
          && |t.showV6(a)| <= 39 && ':' in t.showV6(a)
          && (forall c <- t.showV6(a) :: IsHexOrColon(c)))
    && t.showV6(LOCALHOST6) == "::1"
  }

  function Ascii(s: string): (b: seq<Byte>)
    ensures |b| == |s|
  {
    seq(|s|, i requires 0 <= i < |s| => s[i] as int % 256)
  }

  // ---------- decimal numbers and addresses as text ----------

  function Digit(n: int): char
    requires 0 <= n < 10
  {
    '0' + n as char
  }

  predicate IsDigit(c: char) {
    '0' <= c <= '9'
  }

  predicate AllDigits(s: string) {
    forall c <- s :: IsDigit(c)
  }

  function Dec(n: nat): (s: string)
    ensures s != "" && AllDigits(s)
  {
    if n < 10 then [Digit(n)] else Dec(n / 10) + [Digit(n % 10)]
  }

  function Value(s: string): nat
    requires AllDigits(s)
  {
    if s == "" then 0
    else
      assert IsDigit(s[|s| - 1]);
      Value(s[..|s| - 1]) * 10 + (s[|s| - 1] as int - '0' as int)
  }

  lemma {:induction false} DecValue(n: nat)
    ensures Value(Dec(n)) == n
    ensures n >= 10 ==> Dec(n)[0] != '0'
    ensures n < 256 ==> |Dec(n)| <= 3
    ensures n < 65536 ==> |Dec(n)| <= 5
    ensures n < 10 ==> |Dec(n)| == 1
    ensures n < 100 ==> |Dec(n)| <= 2
    ensures n < 1000 ==> |Dec(n)| <= 3
    ensures n < 10000 ==> |Dec(n)| <= 4
    ensures Dec(n)[0] == '0' ==> n == 0
  {
    if n >= 10 {
      DecValue(n / 10);
      assert Dec(n)[..|Dec(n)| - 1] == Dec(n / 10);
    } else {
      assert Dec(n)[..0] == "";
    }
  }

  /** One number of an IPv4 address: one to three digits, no leading zero, at most 255. */
  function ReadOctet(s: string): Option<Byte> {
    if 1 <= |s| <= 3 && AllDigits(s) && (s[0] == '0' ==> |s| == 1) && Value(s) < 256 then Some(Value(s)) else None
  }

  function DotAt(s: string): (n: nat)
    ensures n <= |s|
    ensures '.' !in s[..n] && (n < |s| ==> s[n] == '.')
  {
    if s == "" || s[0] == '.' then 0 else 1 + DotAt(s[1..])
  }

  function SplitDots(s: string): seq<string>
    decreases |s|
  {
    var n := DotAt(s);
    if n == |s| then [s] else [s[..n]] + SplitDots(s[n + 1..])
  }

  function ReadV4(s: string): Option<Ip4> {
    var parts := SplitDots(s);
    if |parts| != 4 then None
    else match (ReadOctet(parts[0]), ReadOctet(parts[1]), ReadOctet(parts[2]), ReadOctet(parts[3]))
      case (Some(a), Some(b), Some(c), Some(d)) => Some(Ip4(a, b, c, d))
      case _ => None
  }

  function ShowV4(ip: Ip4): string {
    Dec(ip.a) + "." + (Dec(ip.b) + "." + (Dec(ip.c) + "." + Dec(ip.d)))
  }

  function ReadIp(s: string, t: Text): Option<Ip> {
    match ReadV4(s)
    case Some(ip) => Some(V4(ip))
    case None => match t.readV6(s) case Some(ip) => Some(V6(ip)) case None => None
  }

  function ShowIp(ip: Ip, t: Text): string {
    match ip case V4(a) => ShowV4(a) case V6(a) => t.showV6(a)
  }

  /** u16::from_str: an optional plus sign, then digits. */
  function ReadPort(s: string): Option<Port> {
    var digits := if s != "" && s[0] == '+' then s[1..] else s;
    if digits != "" && AllDigits(digits) && Value(digits) < 65536 then Some(Value(digits)) else None
  }

  lemma PortReadsBack(p: Port)
    ensures ReadPort(Dec(p)) == Some(p) && |Dec(p)| <= 5
  {
    DecValue(p);
    assert IsDigit(Dec(p)[0]);
  }

  lemma OctetReadsBack(n: Byte)
    ensures ReadOctet(Dec(n)) == Some(n) && |Dec(n)| <= 3
  {
    DecValue(n);
  }

  lemma {:induction false} DotAfterDigits(a: string, rest: string)
    requires AllDigits(a)
    ensures DotAt(a + "." + rest) == |a|
    ensures DotAt(a) == |a|
  {
    if a == "" {
      assert a + "." + rest == "." + rest;
    } else {
      assert IsDigit(a[0]);
      DotAfterDigits(a[1..], rest);
      assert (a + "." + rest)[1..] == a[1..] + "." + rest;
    }
  }

  lemma SplitFirst(a: string, rest: string)
    requires AllDigits(a)
    ensures SplitDots(a + "." + rest) == [a] + SplitDots(rest) && SplitDots(a) == [a]
  {
    DotAfterDigits(a, rest);
    var s := a + "." + rest;
    assert s[..|a|] == a && s[|a| + 1..] == rest;
  }

  lemma V4ReadsBack(ip: Ip4)
    ensures ReadV4(ShowV4(ip)) == Some(ip) && |ShowV4(ip)| <= 15
  {
    OctetReadsBack(ip.a);
    OctetReadsBack(ip.b);
    OctetReadsBack(ip.c);
    OctetReadsBack(ip.d);
    SplitFour(Dec(ip.a), Dec(ip.b), Dec(ip.c), Dec(ip.d));
  }

  lemma SplitFour(a: string, b: string, c: string, d: string)
    requires AllDigits(a) && AllDigits(b) && AllDigits(c) && AllDigits(d)
    ensures SplitDots(a + "." + (b + "." + (c + "." + d))) == [a, b, c, d]
  {
    hide DotAt, SplitDots, AllDigits;
    SplitFirst(a, b + "." + (c + "." + d));
    SplitFirst(b, c + "." + d);
    SplitFirst(c, d);
    SplitFirst(d, "");
  }

  // ---------- only printed addresses are read ----------

  lemma {:induction false} DigitsAreDec(s: string)
    requires s != "" && AllDigits(s) && (s[0] == '0' ==> |s| == 1)
    ensures Dec(Value(s)) == s
  {
    var init, c := s[..|s| - 1], s[|s| - 1];
    assert IsDigit(c);
    if init == "" {
      assert Value(s) == c as int - '0' as int;
      assert s == [c] && Digit(Value(s)) == c;
    } else {
      assert init[0] == s[0];
      DigitsAreDec(init);
      PositiveValue(init);
      assert Value(s) / 10 == Value(init) && Digit(Value(s) % 10) == c;
      assert s == init + [c];
    }
  }

  lemma {:induction false} PositiveValue(s: string)
    requires s != "" && AllDigits(s) && s[0] != '0'
    ensures Value(s) >= 1
  {
    assert IsDigit(s[|s| - 1]);
    if |s| > 1 {
      assert s[..|s| - 1][0] == s[0];
      PositiveValue(s[..|s| - 1]);
    }
  }

  /** The parts with the dots put back. */
  function Joined(parts: seq<string>): string
    requires parts != []
  {
    if |parts| == 1 then parts[0] else parts[0] + "." + Joined(parts[1..])
  }

  lemma {:induction false} SplitJoins(s: string)
    ensures SplitDots(s) != [] && Joined(SplitDots(s)) == s
    decreases |s|
  {
    var n := DotAt(s);
    if n < |s| {
      SplitJoins(s[n + 1..]);
      assert s == s[..n] + "." + s[n + 1..];
      assert SplitDots(s)[1..] == SplitDots(s[n + 1..]);
    }
  }

  /** The text of an IPv4 address is read as that address, and no other text is: four numbers up to 255
      without leading zeros, with dots between them. */
  lemma V4TextIff(s: string, ip: Ip4)
    ensures ReadV4(s) == Some(ip) <==> s == ShowV4(ip)
  {
    V4ReadsBack(ip);
    if ReadV4(s) == Some(ip) {
      SplitJoins(s);
      var p := SplitDots(s);
      DigitsAreDec(p[0]);
      DigitsAreDec(p[1]);
      DigitsAreDec(p[2]);
      DigitsAreDec(p[3]);
      hide Dec, Value, SplitDots;
      assert p[1..][1..][1..] == [p[3]] && p[1..][1..] == [p[2], p[3]] && p[1..] == [p[1], p[2], p[3]];
      assert Joined([p[3]]) == p[3];
      assert Joined([p[2], p[3]]) == p[2] + "." + p[3];
      assert Joined([p[1], p[2], p[3]]) == p[1] + "." + (p[2] + "." + p[3]);
      assert p == [p[0]] + p[1..];
    }
  }

  lemma {:induction false} ColonStaysInSomePart(s: string, c: nat)
    requires c < |s| && s[c] == ':'
    ensures exists i :: 0 <= i < |SplitDots(s)| && ':' in SplitDots(s)[i]
    decreases |s|
  {
    var n := DotAt(s);
    if c < n {
      assert SplitDots(s)[0] == s[..n] && s[..n][c] == ':';
    } else {
      var rest := s[n + 1..];
      assert rest[c - n - 1] == ':';
      ColonStaysInSomePart(rest, c - n - 1);
      var i :| 0 <= i < |SplitDots(rest)| && ':' in SplitDots(rest)[i];
      assert SplitDots(s)[i + 1] == SplitDots(rest)[i];
    }
  }

  lemma IpReadsBack(ip: Ip, t: Text)
    requires Lawful(t)
    ensures ReadIp(ShowIp(ip, t), t) == Some(ip) && |ShowIp(ip, t)| <= 39
  {
    match ip
    case V4(a) => V4ReadsBack(a);
    case V6(a) =>
      var s := t.showV6(a);
      var c :| 0 <= c < |s| && s[c] == ':';
      ColonStaysInSomePart(s, c);
      var i :| 0 <= i < |SplitDots(s)| && ':' in SplitDots(s)[i];
      assert ReadOctet(SplitDots(s)[i]).None?;
  }

  // ---------- the words of a line ----------

  function WordEnd(s: string): (n: nat)
    ensures n <= |s| && (s != "" && !IsSpace(s[0]) ==> n > 0)
  {
    if s == "" || IsSpace(s[0]) then 0 else 1 + WordEnd(s[1..])
  }

  /** split_whitespace. */
  function Words(s: string): seq<string>
    decreases |s|
  {
    if s == "" then []
    else if IsSpace(s[0]) then Words(s[1..])
    else [s[..WordEnd(s)]] + Words(s[WordEnd(s)..])
  }

  predicate IsWord(w: string) {
    w != "" && forall c <- w :: !IsSpace(c)
  }

  lemma {:induction false} WordEndAfter(w: string, rest: string)
    requires forall c <- w :: !IsSpace(c)
    requires rest == "" || IsSpace(rest[0])
    ensures WordEnd(w + rest) == |w|
  {
    if w == "" {
      assert w + rest == rest;
    } else {
      WordEndAfter(w[1..], rest);
      assert (w + rest)[1..] == w[1..] + rest;
    }
  }

  lemma FirstWord(w: string, rest: string)
    requires IsWord(w)
    ensures Words(w + " " + rest) == [w] + Words(rest) && Words(w) == [w]
  {
    WordEndAfter(w, " " + rest);
    var s := w + " " + rest;
    assert s == w + (" " + rest) && s[..|w|] == w && s[|w|..] == " " + rest;
    assert (" " + rest)[1..] == rest;
    WordEndAfter(w, "");
    assert w + "" == w;
  }

  lemma SixWords(a: string, b: string, c: string, d: string, e: string, f: string)
    requires IsWord(a) && IsWord(b) && IsWord(c) && IsWord(d) && IsWord(e) && IsWord(f)
    ensures Words(a + " " + (b + " " + (c + " " + (d + " " + (e + " " + f))))) == [a, b, c, d, e, f]
  {
    hide Words, IsWord;
    FirstWord(a, b + " " + (c + " " + (d + " " + (e + " " + f))));
    FirstWord(b, c + " " + (d + " " + (e + " " + f)));
    FirstWord(c, d + " " + (e + " " + f));
    FirstWord(d, e + " " + f);
    FirstWord(e, f);
    FirstWord(f, "");
  }

  /** The text of an address is one word of printable ASCII. */
  lemma IpIsWord(ip: Ip, t: Text)
    requires Lawful(t)
    ensures IsWord(ShowIp(ip, t)) && Printable(ShowIp(ip, t))
  {
    match ip
    case V4(a) =>
      assert forall c <- ShowV4(a) :: IsDigit(c) || c == '.';
      assert ShowV4(a)[0] == Dec(a.a)[0];
    case V6(a) => assert forall c <- t.showV6(a) :: IsHexOrColon(c);
  }

  lemma LoopbackTexts(t: Text)
    requires Lawful(t)
    ensures ShowV4(LOCALHOST4) == "127.0.0.1"
  {
    assert Dec(127) == "127" by {
      assert Dec(12) == Dec(1) + "2";
    }
  }

  predicate Printable(s: string) {
    forall c <- s :: 32 <= c as int < 128
  }

  lemma PrintableAscii(s: string)
    requires Printable(s)
    ensures IsAscii(s) && 13 !in Ascii(s)
  {
    forall i | 0 <= i < |s|
      ensures Ascii(s)[i] != 13
    {
      assert s[i] in s;
    }
  }

  lemma SixWordsArePrintable(a: string, b: string, c: string, d: string, e: string, f: string)
    requires Printable(a) && Printable(b) && Printable(c) && Printable(d) && Printable(e) && Printable(f)
    ensures var s := a + " " + (b + " " + (c + " " + (d + " " + (e + " " + f))));
            Printable(s) && |s| == |a| + |b| + |c| + |d| + |e| + |f| + 5 && a + " " <= s
  {
  }
}
