/** The bandwidth limiter's token bucket (token_bucket.rs), with real numbers for f64 and time
    in seconds. Rate per second and burst are the same number of bytes, at least 1. */
module TokenBucket {
  const EPSILON: real := 1.0 / 4503599627370496.0  // f64::EPSILON, 2 to the power of -52

  const MIN_SLEEP: real := 0.000001

  function Min(a: real, b: real): real {
    if a <= b then a else b
  }

  function Max(a: real, b: real): real {
    if a >= b then a else b
  }

  datatype Bucket = Bucket(bytes: nat, tokens: real, last: real)

  ghost predicate Sound(b: Bucket) {
    b.bytes >= 1 && 0.0 <= b.tokens <= b.bytes as real
  }

  /** The tokens that arrive in a span of time. */
  function Drip(bytes: nat, span: real): real {
    span * bytes as real
  }

  lemma DripIsMonotone(bytes: nat, x: real, y: real)
    requires x <= y
    ensures Drip(bytes, x) <= Drip(bytes, y)
  {
    assert (y - x) * bytes as real >= 0.0;
  }

  lemma DripAdds(bytes: nat, x: real, y: real)
    ensures Drip(bytes, x) + Drip(bytes, y) == Drip(bytes, x + y)
  {
  }

  /** A bound in terms of what drips in, with the rate written out. */
  lemma AtTheRate(x: real, rest: real, bytes: nat, span: real)
    requires x <= rest + Drip(bytes, span)
    ensures x <= rest + span * bytes as real
  {
  }

  function Refill(b: Bucket, now: real): Bucket {
    b.(last := now, tokens := Min(b.tokens + Drip(b.bytes, now - b.last), b.bytes as real))
  }

  /** One section under the limiter's lock: an attempt to take tokens, or their return. */
  datatype Event = Take(amount: real, at: real) | Return(amount: real, at: real)

  predicate Grants(b: Bucket, e: Event) {
    e.Take? && Refill(b, e.at).tokens >= e.amount
  }

  function Do(b: Bucket, e: Event): Bucket {
    var r := Refill(b, e.at);
    match e
    case Take(n, _) => if r.tokens >= n then r.(tokens := r.tokens - n) else r
    case Return(n, _) => r.(tokens := Min(r.tokens + n, r.bytes as real))
  }

  function Play(b: Bucket, es: seq<Event>): Bucket {
    if es == [] then b else Do(Play(b, es[..|es| - 1]), es[|es| - 1])
  }

  function NetOf(b: Bucket, e: Event): real {
    if e.Return? then -e.amount else if Grants(b, e) then e.amount else 0.0
  }

  /** Tokens granted minus tokens returned, by all users together. */
  function Net(b: Bucket, es: seq<Event>): real {
    if es == [] then 0.0
    else
      var before := Play(b, es[..|es| - 1]);
      var e := es[|es| - 1];
      Net(b, es[..|es| - 1]) + NetOf(before, e)
  }

  /** The events happen in the order of a clock that never runs backwards, after `b`. */
  ghost predicate InOrder(b: Bucket, es: seq<Event>) {
    && (forall i :: 0 <= i < |es| ==> es[i].amount >= 0.0 && es[i].at >= b.last)
    && (forall i, j :: 0 <= i < j < |es| ==> es[i].at <= es[j].at)
  }

  lemma OneMorePlayed(b: Bucket, es: seq<Event>, e: Event)
    ensures Play(b, es + [e]) == Do(Play(b, es), e)
    ensures Net(b, es + [e]) == Net(b, es) + NetOf(Play(b, es), e)
  {
    assert (es + [e])[..|es|] == es;
  }

  /** An event, and whether it is of the user we follow. */
  datatype Turn = Turn(event: Event, mine: bool)

  function Events(ts: seq<Turn>): seq<Event> {
    seq(|ts|, i requires 0 <= i < |ts| => ts[i].event)
  }

  function Played(b: Bucket, ts: seq<Turn>): Bucket {
    Play(b, Events(ts))
  }

  function NetOfTurns(b: Bucket, ts: seq<Turn>): real {
    Net(b, Events(ts))
  }

  /** Of one user: the tokens it was granted minus those it returned, and how often it was granted
      and refused tokens; and how many turns others took. */
  datatype Tally = Tally(net: real, granted: nat, refused: nat, theirs: nat)

  const Nothing := Tally(0.0, 0, 0, 0)

  function Add(x: Tally, y: Tally): Tally {
    Tally(x.net + y.net, x.granted + y.granted, x.refused + y.refused, x.theirs + y.theirs)
  }

  function TurnTally(b: Bucket, t: Turn): Tally {
    if !t.mine then Tally(0.0, 0, 0, 1)
    else if t.event.Return? then Tally(-t.event.amount, 0, 0, 0)
    else if Grants(b, t.event) then Tally(t.event.amount, 1, 0, 0)
    else Tally(0.0, 0, 1, 0)
  }

  function TallyOf(b: Bucket, ts: seq<Turn>): Tally {
    if ts == [] then Nothing
    else
      var init := ts[..|ts| - 1];
      Add(TallyOf(b, init), TurnTally(Played(b, init), ts[|ts| - 1]))
  }

  lemma NoTurns(b: Bucket)
    ensures Played(b, []) == b && TallyOf(b, []) == Nothing
  {
    assert Events([]) == [];
  }

  lemma OneMoreTurn(b: Bucket, ts: seq<Turn>, t: Turn)
    ensures Played(b, ts + [t]) == Do(Played(b, ts), t.event)
    ensures TallyOf(b, ts + [t]) == Add(TallyOf(b, ts), TurnTally(Played(b, ts), t))
  {
    assert (ts + [t])[..|ts|] == ts;
    assert Events(ts + [t]) == Events(ts) + [t.event];
    OneMorePlayed(b, Events(ts), t.event);
  }

  lemma NothingToAdd(x: Tally)
    ensures Add(x, Nothing) == x
  {
  }

  lemma AddsUp(x: Tally, y: Tally, z: Tally)
    ensures Add(Add(x, y), z) == Add(x, Add(y, z))
  {
  }

  lemma {:induction false} TurnsAppend(b: Bucket, ts: seq<Turn>, more: seq<Turn>)
    ensures Played(b, ts + more) == Played(Played(b, ts), more)
    ensures TallyOf(b, ts + more) == Add(TallyOf(b, ts), TallyOf(Played(b, ts), more))
    decreases |more|
  {
    hide Do, TurnTally, Add;
    if more == [] {
      assert ts + more == ts;
      NoTurns(Played(b, ts));
      NothingToAdd(TallyOf(b, ts));
    } else {
      var init, t := more[..|more| - 1], more[|more| - 1];
      TurnsAppend(b, ts, init);
      AddsUp(TallyOf(b, ts), TallyOf(Played(b, ts), init), TurnTally(Played(b, ts + init), t));
      assert ts + more == (ts + init) + [t] && more == init + [t];
      OneMoreTurn(b, ts + init, t);
      OneMoreTurn(Played(b, ts), init, t);
    }
  }

  /** Turns of others count for nobody else. */
  lemma {:induction false} NothingMine(b: Bucket, ts: seq<Turn>)
    requires forall t <- ts :: !t.mine
    ensures TallyOf(b, ts) == Tally(0.0, 0, 0, |ts|)
  {
    if ts != [] {
      NothingMine(b, ts[..|ts| - 1]);
      assert ts[|ts| - 1] in ts;
    }
  }

  /** A user alone is granted all that is granted. */
  lemma {:induction false} AllMine(b: Bucket, ts: seq<Turn>)
    requires TallyOf(b, ts).theirs == 0
    ensures TallyOf(b, ts).net == NetOfTurns(b, ts)
  {
    if ts != [] {
      AllMine(b, ts[..|ts| - 1]);
      assert Events(ts)[..|ts| - 1] == Events(ts[..|ts| - 1]);
    }
  }

  /** A turn at a later moment continues a run. */
  lemma LaterTurn(b: Bucket, ts: seq<Turn>, t: Turn)
    requires Sound(b) && InOrder(b, Events(ts))
    requires t.event.amount >= 0.0 && t.event.at >= Played(b, ts).last
    ensures InOrder(b, Events(ts + [t]))
  {
    NetIsCovered(b, Events(ts));
    assert Events(ts + [t]) == Events(ts) + [t.event];
    var es := Events(ts);
    assert forall i :: 0 <= i < |es| ==> es[i].at <= es[|es| - 1].at;
  }

  /** The turns that were added to `was`. */
  function Since(was: seq<Turn>, now: seq<Turn>): seq<Turn>
    requires was <= now
  {
    now[|was|..]
  }

  /** What two stretches of turns make of a bucket, one after the other. */
  lemma SinceThen(b: Bucket, was: seq<Turn>, mid: seq<Turn>, now: seq<Turn>)
    requires was <= mid <= now
    ensures was <= now
    ensures var b' := Played(b, Since(was, mid));
            && Played(b, Since(was, now)) == Played(b', Since(mid, now))
            && TallyOf(b, Since(was, now)) == Add(TallyOf(b, Since(was, mid)), TallyOf(b', Since(mid, now)))
  {
    assert Since(was, now) == Since(was, mid) + Since(mid, now);
    TurnsAppend(b, Since(was, mid), Since(mid, now));
  }

  lemma NothingYet(b: Bucket, was: seq<Turn>)
    ensures Since(was, was) == [] && Played(b, Since(was, was)) == b && TallyOf(b, Since(was, was)) == Nothing
  {
    NoTurns(b);
  }

  lemma SinceOne(b: Bucket, was: seq<Turn>, t: Turn)
    ensures Played(b, Since(was, was + [t])) == Do(b, t.event) && TallyOf(b, Since(was, was + [t])) == TurnTally(b, t)
  {
    assert Since(was, was + [t]) == [] + [t];
    NoTurns(b);
    OneMoreTurn(b, [], t);
  }

  lemma RefillIsSound(b: Bucket, now: real)
    requires Sound(b) && now >= b.last
    ensures Sound(Refill(b, now)) && b.tokens <= Refill(b, now).tokens <= b.tokens + Drip(b.bytes, now - b.last)
  {
    DripIsMonotone(b.bytes, 0.0, now - b.last);
  }

  lemma EventIsPaidFor(b: Bucket, e: Event)
    requires Sound(b) && e.at >= b.last && e.amount >= 0.0
    ensures Sound(Do(b, e)) && NetOf(b, e) <= b.tokens - Do(b, e).tokens + Drip(b.bytes, e.at - b.last)
  {
    RefillIsSound(b, e.at);
  }

  /** The bucket after a run, in terms of what dripped in. */
  lemma {:induction false} NetIsCovered(b: Bucket, es: seq<Event>)
    requires Sound(b) && InOrder(b, es)
    ensures var b' := Play(b, es);
            && Sound(b') && b'.bytes == b.bytes
            && b'.last == (if es == [] then b.last else es[|es| - 1].at)
            && Net(b, es) <= b.tokens - b'.tokens + Drip(b.bytes, b'.last - b.last)
  {
    if es != [] {
      var init := es[..|es| - 1];
      var e := es[|es| - 1];
      NetIsCovered(b, init);
      var mid := Play(b, init);
      EventIsPaidFor(mid, e);
      DripAdds(b.bytes, mid.last - b.last, e.at - mid.last);
    }
  }

  /** The bucket after a run: sound, at the time of the last event, and the net grants are paid
      for by the initial tokens and the time that has passed. */
  lemma NetIsPaidFor(b: Bucket, es: seq<Event>)
    requires Sound(b) && InOrder(b, es)
    ensures var b' := Play(b, es);
            Sound(b') && b'.bytes == b.bytes && b'.last == (if es == [] then b.last else es[|es| - 1].at)
    ensures Net(b, es) <= b.tokens - Play(b, es).tokens + (Play(b, es).last - b.last) * b.bytes as real
  {
    hide Play, Net, InOrder, Sound;
    NetIsCovered(b, es);
  }

  lemma {:induction false} PlayFromRefilled(b: Bucket, es: seq<Event>)
    requires es != [] && Sound(b) && InOrder(b, es)
    ensures Play(Refill(b, es[0].at), es) == Play(b, es) && Net(Refill(b, es[0].at), es) == Net(b, es)
  {
    var r := Refill(b, es[0].at);
    var init := es[..|es| - 1];
    if init == [] {
      assert Refill(r, es[0].at) == r by {
        RefillIsSound(b, es[0].at);
      }
    } else {
      assert init[0] == es[0];
      PlayFromRefilled(b, init);
    }
  }

  lemma InOrderSplit(b: Bucket, before: seq<Event>, window: seq<Event>)
    requires Sound(b) && InOrder(b, before + window)
    ensures InOrder(b, before) && InOrder(Play(b, before), window) && Sound(Play(b, before))
    ensures window != [] ==> window[0].at >= Play(b, before).last && InOrder(Refill(Play(b, before), window[0].at), window)
  {
    var all := before + window;
    assert forall i :: 0 <= i < |before| ==> before[i] == all[i];
    assert forall i :: 0 <= i < |window| ==> window[i] == all[|before| + i];
    NetIsCovered(b, before);
  }

  lemma WindowFromRefilled(r: Bucket, window: seq<Event>, t1: real, t2: real)
    requires Sound(r) && InOrder(r, window) && window != [] && r.last == window[0].at
    requires forall i :: 0 <= i < |window| ==> t1 <= window[i].at <= t2
    ensures Net(r, window) <= r.bytes as real + Drip(r.bytes, t2 - t1)
  {
    hide Drip;
    NetIsCovered(r, window);
    DripIsMonotone(r.bytes, window[|window| - 1].at - window[0].at, t2 - t1);
  }

  lemma InOrderUpTo(b: Bucket, es: seq<Event>, i: nat, j: nat)
    requires InOrder(b, es) && i <= j <= |es|
    ensures InOrder(b, es[..i] + es[i..j])
  {
    assert es[..i] + es[i..j] == es[..j];
  }

  lemma WindowIsCovered(b: Bucket, before: seq<Event>, window: seq<Event>, t1: real, t2: real)
    requires Sound(b) && InOrder(b, before + window)
    requires forall i :: 0 <= i < |window| ==> t1 <= window[i].at <= t2
    requires t1 <= t2
    ensures Net(Play(b, before), window) <= b.bytes as real + Drip(b.bytes, t2 - t1)
  {
    if window == [] {
      DripIsMonotone(b.bytes, 0.0, t2 - t1);
    } else {
      hide Drip;
      InOrderSplit(b, before, window);
      NetIsCovered(b, before);
      var mid := Play(b, before);
      PlayFromRefilled(mid, window);
      RefillIsSound(mid, window[0].at);
      WindowFromRefilled(Refill(mid, window[0].at), window, t1, t2);
    }
  }

  /** Between any two instants t1 and t2 of a run, whatever came before and however many users
      take turns, the tokens granted minus those returned are at most the burst plus what
      arrives from t1 to t2 at the rate. */
  lemma WindowBound(b: Bucket, before: seq<Event>, window: seq<Event>, t1: real, t2: real)
    requires Sound(b) && InOrder(b, before + window)
    requires forall i :: 0 <= i < |window| ==> t1 <= window[i].at <= t2
    requires t1 <= t2
    ensures Net(Play(b, before), window) <= b.bytes as real + (t2 - t1) * b.bytes as real
  {
    hide Play, Net, InOrder, Sound, Drip;
    WindowIsCovered(b, before, window, t1, t2);
    AtTheRate(Net(Play(b, before), window), b.bytes as real, b.bytes, t2 - t1);
  }

  /** What the bucket holds at a later moment, in full. */
  lemma LevelAt(b: Bucket, now: real)
    ensures var had := b.tokens + (now - b.last) * b.bytes as real;
            Refill(b, now) == Bucket(b.bytes, if had <= b.bytes as real then had else b.bytes as real, now)
  {
  }

  /** An attempt to take, in full: since the bucket was last seen the rate times the time has arrived, up
      to the burst; the attempt is granted exactly if that covers it, and takes then what it asks. */
  lemma TakeMeans(b: Bucket, amount: real, at: real)
    ensures var had := b.tokens + (at - b.last) * b.bytes as real;
            var level := if had <= b.bytes as real then had else b.bytes as real;
            && (Grants(b, Take(amount, at)) <==> level >= amount)
            && NetOf(b, Take(amount, at)) == (if level >= amount then amount else 0.0)
            && Do(b, Take(amount, at)) == Bucket(b.bytes, if level >= amount then level - amount else level, at)
  {
    LevelAt(b, at);
    hide Refill, Drip;
  }

  /** And so for a return, which fills the bucket up to the burst. */
  lemma ReturnMeans(b: Bucket, amount: real, at: real)
    ensures var had := b.tokens + (at - b.last) * b.bytes as real;
            var level := (if had <= b.bytes as real then had else b.bytes as real) + amount;
            && NetOf(b, Return(amount, at)) == -amount
            && Do(b, Return(amount, at)) == Bucket(b.bytes, if level <= b.bytes as real then level else b.bytes as real, at)
  {
    LevelAt(b, at);
    hide Refill, Drip;
  }

  lemma LongEnoughIff(span: real, need: real, rate: real)
    requires rate >= 1.0
    ensures span * rate >= need <==> span >= need / rate
  {
    var q := need / rate;
    assert q * rate == need;
    if span >= q {
      assert (span - q) * rate >= 0.0;
    } else {
      assert (q - span) * rate > 0.0;
    }
  }

  /** Half the burst arrives in half a second, and so on: a request within the burst is granted exactly
      once the bucket has been left alone for as long as the missing tokens take at the rate. */
  lemma GrantedIff(b: Bucket, n: nat, at: real)
    requires Sound(b) && n <= b.bytes && at >= b.last
    ensures Grants(b, Take(n as real, at)) <==> at - b.last >= (n as real - b.tokens) / b.bytes as real
  {
    LevelAt(b, at);
    LongEnoughIff(at - b.last, n as real - b.tokens, b.bytes as real);
    hide Refill, Drip;
  }

  lemma AtMostASecond(need: real, rate: real)
    requires need <= rate && rate >= 1.0
    ensures need / rate <= 1.0
  {
    var q := need / rate;
    assert q * rate == need;
    assert q > 1.0 ==> (q - 1.0) * rate > 0.0;
  }

  /** A bucket left alone for a second is full. */
  lemma FullAfterASecond(b: Bucket, n: nat, at: real)
    requires Sound(b) && n <= b.bytes && at >= b.last + 1.0
    ensures Grants(b, Take(n as real, at))
  {
    var rate := b.bytes as real;
    GrantedIff(b, n, at);
    AtMostASecond(n as real - b.tokens, rate);
  }

  // ---------- the limiter itself ----------

  /** A clock that never runs backwards. */
  class Clock {
    var now: real
    ghost var sleeps: nat  // sleeps of the user we follow
    ghost var asked: real  // how long it asked to sleep, in all

    constructor ()
      ensures now == 0.0 && sleeps == 0 && asked == 0.0
    {
      now := 0.0;
      sleeps, asked := 0, 0.0;
    }

    method Pass()
      modifies this`now
      ensures now >= old(now)
    {
      var extra: real := *;
      if extra > 0.0 {
        now := now + extra;
      }
    }

    /** tokio::time::sleep: at least `d`, possibly longer. */
    method Sleep(d: real)
      requires d >= 0.0
      modifies this
      ensures now >= old(now) + d && sleeps == old(sleeps) + 1 && asked == old(asked) + d
    {
      now := now + d;
      sleeps, asked := sleeps + 1, asked + d;
      Pass();
    }
  }

  lemma SleptLongEnough(b: Bucket, want: real, now: real)
    requires Sound(b) && b.tokens < want <= b.bytes as real
    requires now >= b.last + (want - b.tokens) / b.bytes as real
    ensures Refill(b, now).tokens >= want
  {
    var need := want - b.tokens;
    var r := b.bytes as real;
    assert need / r * r == need;
    DripIsMonotone(b.bytes, need / r, now - b.last);
  }

  class BandwidthLimiter {
    const bytes: nat
    const clock: Clock
    var tokens: real
    var last: real
    ghost const origin: Bucket
    ghost var turns: seq<Turn>  // the sections under the lock so far

    /** The bucket is what its turns, in the order of the clock, have made of it. */
    ghost predicate Valid()
      reads this, clock
    {
      && Sound(View()) && last <= clock.now
      && Sound(origin) && InOrder(origin, Events(turns)) && View() == Played(origin, turns)
    }

    ghost function View(): Bucket
      reads this
    {
      Bucket(bytes, tokens, last)
    }

    constructor (bytesPerSec: nat, clock: Clock)
      ensures Valid() && this.clock == clock && bytes == (if bytesPerSec == 0 then 1 else bytesPerSec)
      ensures tokens == bytes as real && last == clock.now && turns == []
    {
      this.bytes := if bytesPerSec == 0 then 1 else bytesPerSec;
      this.clock := clock;
      this.tokens := (if bytesPerSec == 0 then 1 else bytesPerSec) as real;
      this.last := clock.now;
      origin := Bucket(if bytesPerSec == 0 then 1 else bytesPerSec, (if bytesPerSec == 0 then 1 else bytesPerSec) as real, clock.now);
      turns := [];
    }

    /** The refill at the start of a section; the section itself is not recorded yet. */
    method RefillNow()
      requires Valid()
      modifies this`tokens, this`last, clock`now
      ensures Sound(View()) && last == clock.now && clock.now >= old(clock.now) && View() == Refill(old(View()), clock.now)
    {
      clock.Pass();
      RefillIsSound(View(), clock.now);
      tokens := Min(tokens + (clock.now - last) * bytes as real, bytes as real);
      last := clock.now;
    }

    /** The section under the lock of an attempt to take `amount`. */
    method TakeNow(amount: real, ghost mine: bool) returns (ok: bool)
      requires Valid() && 0.0 <= amount
      modifies this`tokens, this`last, this`turns, clock`now
      ensures Valid() && clock.now >= old(clock.now) && last == clock.now
      ensures turns == old(turns) + [Turn(Take(amount, clock.now), mine)]
      ensures ok == Grants(old(View()), Take(amount, clock.now)) && View() == Do(old(View()), Take(amount, clock.now))
      ensures Refill(old(View()), old(clock.now)).tokens >= amount ==> ok
      ensures !ok ==> View().tokens < amount
    {
      ghost var before := View();
      ghost var earlier := clock.now;
      RefillNow();
      LaterRefillIsNoSmaller(before, earlier, clock.now);
      ok := tokens >= amount;
      if ok {
        tokens := tokens - amount;
      }
      LaterTurn(origin, turns, Turn(Take(amount, clock.now), mine));
      OneMoreTurn(origin, turns, Turn(Take(amount, clock.now), mine));
      turns := turns + [Turn(Take(amount, clock.now), mine)];
    }

    /** Grants all of `n` or nothing: never more than the burst, and exactly when the refilled
        bucket covers it. */
    method TryWaitN(n: nat, ghost mine: bool) returns (ok: bool)
      requires Valid()
      modifies this`tokens, this`last, this`turns, clock`now
      ensures Valid()
      ensures n == 0 ==> ok && View() == old(View()) && turns == old(turns)
      ensures n > bytes ==> !ok && View() == old(View()) && turns == old(turns)
      ensures n == 0 || n > bytes ==> clock.now == old(clock.now)
      ensures 0 < n <= bytes ==>
                var e := Take(n as real, clock.now);
                ok == Grants(old(View()), e) && View() == Do(old(View()), e) && turns == old(turns) + [Turn(e, mine)]
                && clock.now >= old(clock.now)
    {
      if n == 0 {
        return true;
      }
      if n as real > bytes as real + EPSILON {
        return false;
      }
      assert n <= bytes;
      ok := TakeNow(n as real, mine);
    }

    method ReturnN(n: nat, ghost mine: bool)
      requires Valid()
      modifies this`tokens, this`last, this`turns, clock`now
      ensures Valid()
      ensures n == 0 ==> View() == old(View()) && turns == old(turns) && clock.now == old(clock.now)
      ensures n > 0 ==>
                var e := Return(n as real, clock.now);
                View() == Do(old(View()), e) && turns == old(turns) + [Turn(e, mine)] && clock.now >= old(clock.now)
    {
      if n == 0 {
        return;
      }
      RefillNow();
      tokens := Min(tokens + n as real, bytes as real);
      LaterTurn(origin, turns, Turn(Return(n as real, clock.now), mine));
      OneMoreTurn(origin, turns, Turn(Return(n as real, clock.now), mine));
      turns := turns + [Turn(Return(n as real, clock.now), mine)];
    }

    /** Other users take the limiter's lock up to `rounds` times, for any attempts and returns. */
    method OthersAct(rounds: nat) returns (left: nat)
      requires Valid()
      modifies this`tokens, this`last, this`turns, clock`now
      ensures Valid() && old(turns) <= turns && left <= rounds
      ensures left == rounds ==> turns == old(turns) && View() == old(View()) && clock.now == old(clock.now)
      ensures |Since(old(turns), turns)| == rounds - left && forall t <- Since(old(turns), turns) :: !t.mine
    {
      left := rounds;
      while left > 0
        invariant Valid() && old(turns) <= turns && left <= rounds
        invariant left == rounds ==> turns == old(turns) && View() == old(View()) && clock.now == old(clock.now)
        invariant |Since(old(turns), turns)| == rounds - left && forall t <- Since(old(turns), turns) :: !t.mine
      {
        var stop: bool, gives: bool, n: nat := *, *, *;
        if stop || n == 0 || (!gives && n > bytes) {
          return;
        }
        if gives {
          ReturnN(n, false);
        } else {
          var _ := TryWaitN(n, false);
        }
        left := left - 1;
      }
    }

    /** The sleep after a refusal: long enough if nobody else comes. */
    method SleepForTokens(want: real)
      requires Valid() && tokens < want <= bytes as real
      modifies clock
      ensures Valid() && clock.sleeps == old(clock.sleeps) + 1 && Refill(View(), clock.now).tokens >= want
      ensures var d := (want - tokens) / bytes as real;
              clock.asked == old(clock.asked) + (if d >= 0.000001 then d else 0.000001)
      ensures clock.asked <= old(clock.asked) + 1.0
    {
      assert (want - tokens) / bytes as real <= 1.0 by { AtMostASecond(want - tokens, bytes as real); }
      var need := want - tokens;
      assert need / bytes as real >= 0.0;
      clock.Sleep(Max(need / bytes as real, MIN_SLEEP));
      SleptLongEnough(View(), want, clock.now);
    }

    /** The inner loop of wait_n, with other users let in during each sleep: this user is granted
        `want` once and sleeps after every refusal. A sleep that nobody used is enough, so there is
        at most one refusal more than there were turns of others. */
    method Acquire(want: real, rounds: nat) returns (left: nat)
      requires Valid() && 0.0 <= want <= bytes as real
      modifies this`tokens, this`last, this`turns, clock
      ensures Valid() && left <= rounds && old(turns) <= turns
      ensures View() == Played(old(View()), Since(old(turns), turns))
      ensures var tally := TallyOf(old(View()), Since(old(turns), turns));
              && tally.net == want && tally.granted == 1 && tally.refused <= tally.theirs + 1
              && tally.theirs == rounds - left && clock.sleeps == old(clock.sleeps) + tally.refused
              && clock.asked <= old(clock.asked) + tally.refused as real
    {
      hide Played, TallyOf, Do, Refill, Sound, Events, InOrder, Since;
      left := rounds;
      var rested := false;
      ghost var b, tally := View(), Nothing;
      NothingYet(b, turns);
      while true
        invariant Valid() && left <= rounds && old(turns) <= turns
        invariant rested ==> Refill(View(), clock.now).tokens >= want
        invariant View() == Played(b, Since(old(turns), turns)) && tally == TallyOf(b, Since(old(turns), turns))
        invariant tally.net == 0.0 && tally.granted == 0 && tally.refused <= tally.theirs + (if rested then 1 else 0)
        invariant tally.theirs == rounds - left && clock.sleeps == old(clock.sleeps) + tally.refused
        invariant clock.asked <= old(clock.asked) + tally.refused as real
        decreases left, !rested
      {
        ghost var before := turns;
        var ok := TakeNow(want, true);
        ghost var mine := Turn(Take(want, clock.now), true);
        SinceThen(b, old(turns), before, turns);
        SinceOne(Played(b, Since(old(turns), before)), before, mine);
        if ok {
          return;
        }
        tally := TallyOf(b, Since(old(turns), turns));
        SleepForTokens(want);
        ghost var now;
        before, now := turns, View();
        var after := OthersAct(left);
        SinceThen(b, old(turns), before, turns);
        SincePlayed(before, now);
        NothingMine(now, Since(before, turns));
        tally := TallyOf(b, Since(old(turns), turns));
        rested, left := after == left, after;
      }
    }

    /** The same, added to what came of the turns since there were `was`. */
    method AcquireMore(want: real, rounds: nat, ghost b: Bucket, ghost was: seq<Turn>) returns (left: nat)
      requires Valid() && 0.0 <= want <= bytes as real
      requires was <= turns && View() == Played(b, Since(was, turns))
      modifies this`tokens, this`last, this`turns, clock
      ensures Valid() && left <= rounds && was <= turns && View() == Played(b, Since(was, turns))
      ensures var before, tally := TallyOf(b, Since(was, old(turns))), TallyOf(b, Since(was, turns));
              && tally.net == before.net + want && tally.granted == before.granted + 1
              && tally.refused - before.refused <= tally.theirs - before.theirs + 1
              && tally.theirs == before.theirs + rounds - left
              && clock.sleeps == old(clock.sleeps) + tally.refused - before.refused
              && clock.asked <= old(clock.asked) + (tally.refused - before.refused) as real
    {
      hide Valid, Played, TallyOf, Since;
      left := Acquire(want, rounds);
      SinceThen(b, was, old(turns), turns);
    }

    /** The bucket is what the turns since an earlier moment have made of the bucket then. */
    lemma SincePlayed(was: seq<Turn>, b: Bucket)
      requires Valid() && was <= turns && b == Played(origin, was)
      ensures View() == Played(b, Since(was, turns))
    {
      assert was + Since(was, turns) == turns;
      TurnsAppend(origin, was, Since(was, turns));
    }

    /** Whatever calls were made by whomever: of the turns this limiter has taken, those between any
        two instants were granted at most the burst and what arrives between the two, net of what
        they gave back. */
    lemma GrantsAreBounded(i: nat, j: nat, t1: real, t2: real)
      requires Valid() && i <= j <= |turns| && t1 <= t2
      requires forall k :: i <= k < j ==> t1 <= turns[k].event.at <= t2
      ensures NetOfTurns(Played(origin, turns[..i]), turns[i..j]) <= bytes as real + (t2 - t1) * bytes as real
    {
      GrantsAreCovered(i, j, t1, t2);
      hide Valid, NetOfTurns, Played;
    }

    lemma GrantsAreCovered(i: nat, j: nat, t1: real, t2: real)
      requires Valid() && i <= j <= |turns| && t1 <= t2
      requires forall k :: i <= k < j ==> t1 <= turns[k].event.at <= t2
      ensures NetOfTurns(Played(origin, turns[..i]), turns[i..j]) <= bytes as real + Drip(bytes, t2 - t1)
    {
      hide Drip, Refill, Do;
      var es := Events(turns);
      assert Events(turns[..i]) == es[..i] && Events(turns[i..j]) == es[i..j];
      InOrderUpTo(origin, es, i, j);
      NetIsCovered(origin, es);
      WindowIsCovered(origin, es[..i], es[i..j], t1, t2);
    }

    lemma BurstIsPositive()
      requires Valid()
      ensures bytes >= 1
    {
    }

    /** Waiting for `n` tokens while others use the limiter, for up to `rounds` turns: this user is
        granted exactly `n`, in the least number of grants of at most the burst each. It sleeps once
        after each refusal, which is at most once for each grant and once for each turn of the
        others. Alone, all that was granted is its own. */
    method WaitN(n: nat, rounds: nat)
      requires Valid()
      modifies this`tokens, this`last, this`turns, clock
      ensures Valid() && old(turns) <= turns
      ensures View() == Played(old(View()), Since(old(turns), turns))
      ensures var tally := TallyOf(old(View()), Since(old(turns), turns));
              && tally.net == n as real
              && LeastGrants(n, bytes, tally.granted)
              && clock.sleeps == old(clock.sleeps) + tally.refused && clock.asked <= old(clock.asked) + tally.refused as real
              && tally.refused <= tally.granted + tally.theirs && tally.theirs <= rounds
              && (rounds == 0 ==> NetOfTurns(old(View()), Since(old(turns), turns)) == n as real)
    {
      BurstIsPositive();
      hide Valid, Played, TallyOf, NetOfTurns, RestAfter, Since, Tokens, Min;
      ghost var b, was, granted := View(), turns, 0;
      NothingYet(b, was);
      NoGrants(n, bytes);
      WholeTokens(n);
      if n == 0 {
        AllMine(b, Since(was, turns));
        return;
      }
      var left: nat := rounds;
      var remaining := Tokens(n);
      while remaining > EPSILON
        invariant Valid() && left <= rounds && was <= turns && View() == Played(b, Since(was, turns))
        invariant var tally := TallyOf(b, Since(was, turns));
                  && tally.net == Tokens(n) - remaining && tally.granted == granted
                  && tally.refused <= granted + tally.theirs && tally.theirs == rounds - left
                  && clock.sleeps == old(clock.sleeps) + tally.refused
                  && clock.asked <= old(clock.asked) + tally.refused as real
        invariant remaining == Tokens(RestAfter(n, bytes, granted))
        invariant granted > 0 ==> RestAfter(n, bytes, granted - 1) > 0
        decreases RestAfter(n, bytes, granted)
      {
        WholeTokens(RestAfter(n, bytes, granted));
        OneMoreGrant(n, bytes, granted);
        var want := Min(remaining, Tokens(bytes));
        left := AcquireMore(want, left, b, was);
        remaining := remaining - want;
        granted := granted + 1;
      }
      WholeTokens(RestAfter(n, bytes, granted));
      if rounds == 0 {
        AllMine(b, Since(was, turns));
      }
    }
  }

  /** What is left of `n` after some grants of the burst each, the last one perhaps of less. */
  function RestAfter(n: nat, bytes: nat, grants: nat): nat {
    if grants * bytes <= n then n - grants * bytes else 0
  }

  /** So many grants of at most the burst can make up `n`, and fewer cannot. */
  ghost predicate LeastGrants(n: nat, bytes: nat, grants: nat) {
    RestAfter(n, bytes, grants) == 0 && (grants > 0 ==> RestAfter(n, bytes, grants - 1) > 0)
  }

  lemma LeastGrantsMeans(n: nat, bytes: nat, grants: nat)
    ensures LeastGrants(n, bytes, grants) <==> grants * bytes >= n && (grants > 0 ==> (grants - 1) * bytes < n)
  {
  }

  lemma NoGrants(n: nat, bytes: nat)
    ensures RestAfter(n, bytes, 0) == n
  {
  }

  function Tokens(n: nat): real {
    n as real
  }

  /** Whole numbers of tokens are compared exactly. */
  lemma WholeTokens(rest: nat)
    ensures Tokens(rest) == rest as real && (Tokens(rest) > EPSILON <==> rest > 0) && (rest == 0 <==> Tokens(rest) == 0.0)
  {
  }

  /** And they are taken exactly. */
  lemma OneMoreGrant(n: nat, bytes: nat, grants: nat)
    requires bytes >= 1 && RestAfter(n, bytes, grants) > 0
    ensures var want := Min(Tokens(RestAfter(n, bytes, grants)), Tokens(bytes));
            && 0.0 <= want <= bytes as real
            && Tokens(RestAfter(n, bytes, grants)) - want == Tokens(RestAfter(n, bytes, grants + 1))
    ensures RestAfter(n, bytes, grants + 1) < RestAfter(n, bytes, grants)
  {
    assert (grants + 1) * bytes == grants * bytes + bytes;
  }

  lemma LaterRefillIsNoSmaller(b: Bucket, t1: real, t2: real)
    requires Sound(b) && b.last <= t1 <= t2
    ensures Refill(b, t1).tokens <= Refill(b, t2).tokens
  {
    DripIsMonotone(b.bytes, t1 - b.last, t2 - b.last);
  }
}
