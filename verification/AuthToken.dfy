/** Checking the digest of a login (auth/token.rs), in front of the replay cache. */
module AuthToken {
  import opened Primitives
  import opened Wrappers
  import opened Replay

  type Bytes = seq<Byte>

  /** HMAC-SHA256 over the decimal timestamp, and hexadecimal decoding; nothing is known of them. */
  datatype Crypto = Crypto(mac: (string, i64) -> Bytes, unhex: string -> Option<Bytes>)

  /** Two's complement, as release builds compute it. */
  function Wrap(x: int): i64 {
    (x + TWO_63) % TWO_64 - TWO_63
  }

  function Abs(x: i64): i64 {
    var y: int := x;
    Wrap(if y < 0 then -y else y)
  }

  /** The branches of verify_auth_digest up to the cache. */
  function Screen(token: string, digest: string, timestamp: i64, nowSecs: i64, crypto: Crypto): Verdict {
    if digest == "" then Err(EmptyDigest)
    else if Abs(Wrap(nowSecs - timestamp)) > AUTH_SKEW_SECS then Err(TimestampSkew)
    else
      match crypto.unhex(digest)
      case None => Err(InvalidDigest)
      case Some(bytes) => if bytes == crypto.mac(token, timestamp) then Ok(()) else Err(InvalidDigest)
  }

  /** The clock and the timestamp are within the allowed skew of each other. */
  predicate Within(timestamp: int, nowSecs: int) {
    -AUTH_SKEW_SECS <= nowSecs - timestamp <= AUTH_SKEW_SECS
  }

  /** The difference does not fit in 64 bits, or its size does not. */
  predicate Overflows(timestamp: i64, nowSecs: i64) {
    !(-TWO_63 < nowSecs - timestamp < TWO_63)
  }

  lemma WrapMeans(x: int)
    requires -0x1_0000_0000_0000_0000 < x < 0x1_0000_0000_0000_0000
    ensures Wrap(x) == if x >= 0x8000_0000_0000_0000 then x - 0x1_0000_0000_0000_0000
                       else if x < -0x8000_0000_0000_0000 then x + 0x1_0000_0000_0000_0000 else x
  {
  }

  lemma AbsMeans(y: i64)
    ensures Abs(y) == if y == -0x8000_0000_0000_0000 || y >= 0 then y else -y
  {
  }

  /** The skew check means what it says unless the subtraction overflows; then it is passed for a
      difference of exactly 2^63 either way, and for the two ends of the range next to each other. */
  lemma SkewCheckMeans(timestamp: i64, nowSecs: i64)
    ensures Abs(Wrap(nowSecs - timestamp)) <= AUTH_SKEW_SECS <==>
            || -180 <= nowSecs - timestamp <= 180
            || nowSecs - timestamp in {0x8000_0000_0000_0000, -0x8000_0000_0000_0000}
            || nowSecs - timestamp >= 0x1_0000_0000_0000_0000 - 180
            || nowSecs - timestamp <= 180 - 0x1_0000_0000_0000_0000
    ensures !Overflows(timestamp, nowSecs) ==>
            (Abs(Wrap(nowSecs - timestamp)) <= AUTH_SKEW_SECS <==> Within(timestamp, nowSecs))
  {
    var d := nowSecs - timestamp;
    WrapMeans(d);
    var wrapped := Wrap(d);
    AbsMeans(wrapped);
    hide Wrap, Abs;
  }

  /** A clock that reads zero passes the timestamp 2^63 seconds before it. */
  lemma SkewCheckOverflowExample()
    ensures !Within(-TWO_63, 0) && Abs(Wrap(0 - -TWO_63)) <= AUTH_SKEW_SECS
  {
  }

  /** What the screen says, where the difference of clock and timestamp fits in 64 bits: an empty digest
      is refused first, a timestamp more than 180 s off next, and the rest pass exactly if they are the
      timestamp's digest in hexadecimal. */
  lemma ScreenMeans(token: string, digest: string, timestamp: i64, nowSecs: i64, crypto: Crypto)
    requires !Overflows(timestamp, nowSecs)
    ensures Screen(token, digest, timestamp, nowSecs, crypto)
         == if digest == "" then Err(EmptyDigest)
            else if !(timestamp - 180 <= nowSecs <= timestamp + 180) then Err(TimestampSkew)
            else if crypto.unhex(digest) == Some(crypto.mac(token, timestamp)) then Ok(())
            else Err(InvalidDigest)
  {
    SkewCheckMeans(timestamp, nowSecs);
  }

  /** verify_auth_digest: without a token everything passes; otherwise the screen first, and only
      what passed it reaches the cache, if there is one. */
  method VerifyAuthDigest(token: string, digest: string, timestamp: i64, nowSecs: i64, crypto: Crypto,
                          cache: ReplayCache?, at: real) returns (r: Verdict)
    requires cache != null ==> cache.Valid()
    modifies if cache == null then {} else {cache}
    ensures cache != null ==> cache.Valid()
    ensures token == "" ==> r == Ok(())
    ensures token != "" ==>
      var screened := Screen(token, digest, timestamp, nowSecs, crypto);
      r == if screened.Err? || cache == null then screened else Judged(old(cache.calls), digest, at)
    ensures cache != null ==>
      cache.calls == old(cache.calls) +
        if token != "" && Screen(token, digest, timestamp, nowSecs, crypto).Ok? then [Call(digest, at, r)] else []
  {
    if token == "" {
      return Ok(());
    }
    if digest == "" {
      return Err(EmptyDigest);
    }
    if Abs(Wrap(nowSecs - timestamp)) > AUTH_SKEW_SECS {
      return Err(TimestampSkew);
    }
    match crypto.unhex(digest) {
      case None => return Err(InvalidDigest);
      case Some(bytes) =>
        if bytes != crypto.mac(token, timestamp) {
          return Err(InvalidDigest);
        }
    }
    r := Ok(());
    if cache != null {
      r := cache.AcceptAt(digest, at);
    }
  }

  // ---------- histories of logins ----------

  /** One login: what it claimed, the two clocks, the answer. */
  datatype LoginCheck = LoginCheck(digest: string, timestamp: i64, nowSecs: i64, at: real, verdict: Verdict)

  predicate Screened(token: string, crypto: Crypto, l: LoginCheck) {
    Screen(token, l.digest, l.timestamp, l.nowSecs, crypto).Ok?
  }

  /** The calls the cache got: one for each login that passed the screen, in order. */
  function CallsOf(token: string, crypto: Crypto, logins: seq<LoginCheck>): (calls: seq<Call>)
    ensures forall c <- calls :: exists l :: l in logins && Screened(token, crypto, l) && l.digest == c.digest && l.at == c.at
  {
    if logins == [] then []
    else
      var l := logins[|logins| - 1];
      CallsOf(token, crypto, logins[..|logins| - 1])
      + if Screened(token, crypto, l) then [Call(l.digest, l.at, l.verdict)] else []
  }

  /** The part of the service that judges logins. */
  class Service {
    const token: string
    const crypto: Crypto
    const authReplay: ReplayCache
    ghost var logins: seq<LoginCheck>

    ghost predicate Valid()
      reads this, authReplay
    {
      authReplay.Valid() && (token != "" ==> LegalLogins(token, crypto, logins) && authReplay.calls == CallsOf(token, crypto, logins))
    }

    constructor (token: string, crypto: Crypto)
      ensures Valid() && logins == [] && fresh(authReplay)
    {
      this.token := token;
      this.crypto := crypto;
      authReplay := new ReplayCache();
      logins := [];
    }

    method VerifyLogin(digest: string, timestamp: i64, nowSecs: i64, at: real) returns (r: Verdict)
      requires Valid()
      modifies this, authReplay
      ensures Valid() && logins == old(logins) + [LoginCheck(digest, timestamp, nowSecs, at, r)]
      ensures token == "" ==> r == Ok(())
    {
      r := VerifyAuthDigest(token, digest, timestamp, nowSecs, crypto, authReplay, at);
      ghost var l := LoginCheck(digest, timestamp, nowSecs, at, r);
      assert (logins + [l])[..|logins|] == logins;
      logins := logins + [l];
    }
  }

  /** Every login was answered by the screen, and if it passed, by the cache. */
  ghost predicate LegalLogins(token: string, crypto: Crypto, logins: seq<LoginCheck>) {
    && Legal(CallsOf(token, crypto, logins))
    && forall l <- logins :: !Screened(token, crypto, l) ==> l.verdict == Screen(token, l.digest, l.timestamp, l.nowSecs, crypto)
  }

  lemma {:induction false} CallOfLogin(token: string, crypto: Crypto, logins: seq<LoginCheck>, a: nat)
    requires a < |logins| && Screened(token, crypto, logins[a])
    ensures var n := |CallsOf(token, crypto, logins[..a])|;
            var calls := CallsOf(token, crypto, logins);
            n < |calls| && calls[n] == Call(logins[a].digest, logins[a].at, logins[a].verdict)
            && |CallsOf(token, crypto, logins[..a + 1])| == n + 1
    decreases |logins|
  {
    assert logins[..a + 1][..a] == logins[..a];
    if a < |logins| - 1 {
      var init := logins[..|logins| - 1];
      assert init[..a] == logins[..a] && init[..a + 1] == logins[..a + 1];
      CallOfLogin(token, crypto, init, a);
    }
  }

  lemma {:induction false} CallsGrow(token: string, crypto: Crypto, logins: seq<LoginCheck>, a: nat)
    requires a <= |logins|
    ensures |CallsOf(token, crypto, logins[..a])| <= |CallsOf(token, crypto, logins)|
    decreases |logins|
  {
    if a < |logins| {
      assert logins[..|logins| - 1][..a] == logins[..a];
      CallsGrow(token, crypto, logins[..|logins| - 1], a);
    } else {
      assert logins[..a] == logins;
    }
  }

  ghost predicate SteadyLogins(logins: seq<LoginCheck>) {
    forall i, j :: 0 <= i < j < |logins| ==> logins[i].at <= logins[j].at
  }

  lemma {:induction false} CallsAreSteady(token: string, crypto: Crypto, logins: seq<LoginCheck>)
    requires SteadyLogins(logins)
    ensures Steady(CallsOf(token, crypto, logins))
  {
    if logins != [] {
      var init := logins[..|logins| - 1];
      CallsAreSteady(token, crypto, init);
      forall c | c in CallsOf(token, crypto, init) ensures c.at <= logins[|logins| - 1].at {
        var l :| l in init && Screened(token, crypto, l) && l.digest == c.digest && l.at == c.at;
      }
    }
  }

  lemma AcceptedLoginsAreApart(token: string, crypto: Crypto, logins: seq<LoginCheck>, a: nat, b: nat)
    requires LegalLogins(token, crypto, logins) && SteadyLogins(logins) && a < b < |logins|
    requires logins[a].verdict.Ok? && logins[b].verdict.Ok? && logins[a].digest == logins[b].digest
    ensures Screened(token, crypto, logins[a]) && Screened(token, crypto, logins[b])
    ensures logins[b].at - logins[a].at >= REPLAY_TTL_SECS
  {
    hide Legal, SteadyLogins, Steady, Screen;
    var calls := CallsOf(token, crypto, logins);
    var m, n := |CallsOf(token, crypto, logins[..a])|, |CallsOf(token, crypto, logins[..b])|;
    assert logins[a] in logins && logins[b] in logins;
    CallOfLogin(token, crypto, logins, a);
    CallOfLogin(token, crypto, logins, b);
    assert logins[..b][..a + 1] == logins[..a + 1];
    CallsGrow(token, crypto, logins[..b], a + 1);
    CallsAreSteady(token, crypto, logins);
    AcceptedTwiceIsApart(calls, m, n);
  }

  /** Two logins accepted with one digest are 360 s apart, though its timestamp is good for no longer
      than that; on one clock the second login must come exactly at the end of the
      window, the first exactly at its start. */
  lemma SecondLoginNeedsBothEnds(token: string, crypto: Crypto, logins: seq<LoginCheck>, a: nat, b: nat)
    requires LegalLogins(token, crypto, logins) && SteadyLogins(logins) && a < b < |logins|
    requires logins[a].verdict.Ok? && logins[b].verdict.Ok? && logins[a].digest == logins[b].digest
    ensures logins[b].at - logins[a].at >= 360.0
    ensures var x, y := logins[a], logins[b];
            x.timestamp == y.timestamp && !Overflows(x.timestamp, x.nowSecs) && !Overflows(y.timestamp, y.nowSecs)
            && x.nowSecs == x.at.Floor && y.nowSecs == y.at.Floor
            ==> x.nowSecs == x.timestamp - 180 && y.nowSecs == y.timestamp + 180
  {
    hide LegalLogins, SteadyLogins, Screen, CallsOf;
    var x, y := logins[a], logins[b];
    AcceptedLoginsAreApart(token, crypto, logins, a, b);
    if !Overflows(x.timestamp, x.nowSecs) && !Overflows(y.timestamp, y.nowSecs) {
      ScreenMeans(token, x.digest, x.timestamp, x.nowSecs, crypto);
      ScreenMeans(token, y.digest, y.timestamp, y.nowSecs, crypto);
    }
  }

  /** What the cache holds was verified: each entry is the digest of a login that passed the screen. */
  lemma EntriesWereVerified(token: string, crypto: Crypto, logins: seq<LoginCheck>, entries: map<string, real>, d: string)
    requires Agrees(entries, CallsOf(token, crypto, logins)) && d in entries
    ensures exists l :: l in logins && l.digest == d && crypto.unhex(d) == Some(crypto.mac(token, l.timestamp))
  {
    var calls := CallsOf(token, crypto, logins);
    EntryHasItsCall(entries, calls, d);
    hide Agrees;
    var c :| c in calls && c.digest == d;
    var l :| l in logins && Screened(token, crypto, l) && l.digest == c.digest && l.at == c.at;
    ScreenedIsGenuine(token, crypto, l);
  }

  lemma EntryHasItsCall(entries: map<string, real>, calls: seq<Call>, d: string)
    requires Agrees(entries, calls) && d in entries
    ensures exists c :: c in calls && c.digest == d
  {
    hide Kept;
    var i :| 0 <= i < |calls| && Kept(calls, i) && calls[i].digest == d;
    assert calls[i] in calls;
  }

  lemma ScreenedIsGenuine(token: string, crypto: Crypto, l: LoginCheck)
    requires Screened(token, crypto, l)
    ensures crypto.unhex(l.digest) == Some(crypto.mac(token, l.timestamp))
  {
    hide Abs, Wrap;
  }
}
