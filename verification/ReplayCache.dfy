/** The replay cache (auth/replay.rs), proved against the whole history of the calls it got. */
module Replay {
  import opened Wrappers

  const AUTH_SKEW_SECS := 180
  const REPLAY_TTL_SECS: real := 2.0 * AUTH_SKEW_SECS as real
  const REPLAY_MAX_ENTRIES := 100_000

  datatype AuthFailure = EmptyDigest | InvalidDigest | TimestampSkew | Replay | Capacity

  type Verdict = Result<(), AuthFailure>

  /** One call of the cache: the digest, the monotonic clock in seconds, the answer. */
  datatype Call = Call(digest: string, at: real, verdict: Verdict)

  // ---------- what the history says ----------

  /** Acceptance i has not expired at any later call. */
  ghost predicate Kept(calls: seq<Call>, i: nat)
    requires i < |calls|
  {
    calls[i].verdict.Ok? && forall k :: i < k < |calls| ==> calls[k].at < calls[i].at + REPLAY_TTL_SECS
  }

  ghost predicate Live(calls: seq<Call>, i: nat, now: real)
    requires i < |calls|
  {
    Kept(calls, i) && now < calls[i].at + REPLAY_TTL_SECS
  }

  ghost function LiveDigests(calls: seq<Call>, now: real): set<string> {
    set i | 0 <= i < |calls| && Live(calls, i, now) :: calls[i].digest
  }

  /** The answer that the unbounded history calls for. */
  ghost function Judged(calls: seq<Call>, digest: string, now: real): Verdict {
    if digest in LiveDigests(calls, now) then Err(AuthFailure.Replay)
    else if |LiveDigests(calls, now)| >= REPLAY_MAX_ENTRIES then Err(Capacity)
    else Ok(())
  }

  ghost predicate Legal(calls: seq<Call>) {
    forall j :: 0 <= j < |calls| ==> calls[j].verdict == Judged(calls[..j], calls[j].digest, calls[j].at)
  }

  ghost predicate Steady(calls: seq<Call>) {
    forall i, j :: 0 <= i < j < |calls| ==> calls[i].at <= calls[j].at
  }

  // ---------- the bounded cache ----------

  ghost predicate Agrees(entries: map<string, real>, calls: seq<Call>) {
    && (forall i :: 0 <= i < |calls| && Kept(calls, i) ==>
         calls[i].digest in entries && entries[calls[i].digest] == calls[i].at + REPLAY_TTL_SECS)
    && (forall d <- entries :: exists i :: 0 <= i < |calls| && Kept(calls, i) && calls[i].digest == d)
  }

  function Purged(entries: map<string, real>, now: real): map<string, real> {
    map d | d in entries && entries[d] > now :: entries[d]
  }

  lemma PurgedIsLive(entries: map<string, real>, calls: seq<Call>, now: real)
    requires Agrees(entries, calls)
    ensures Purged(entries, now).Keys == LiveDigests(calls, now)
  {
    forall d ensures d in Purged(entries, now) <==> d in LiveDigests(calls, now) {
      if d in Purged(entries, now) {
        var i :| 0 <= i < |calls| && Kept(calls, i) && calls[i].digest == d;
        assert Live(calls, i, now);
      }
      if d in LiveDigests(calls, now) {
        var i :| 0 <= i < |calls| && Live(calls, i, now) && calls[i].digest == d;
      }
    }
  }

  lemma KeptAfter(calls: seq<Call>, c: Call, i: nat)
    requires i < |calls|
    ensures Kept(calls + [c], i) <==> Live(calls, i, c.at)
  {
    var more := calls + [c];
    if Kept(more, i) {
      assert forall k :: i < k < |calls| ==> more[k] == calls[k];
      assert more[|calls|] == c;
    }
  }

  /** The entries after a call. */
  function EntriesAfter(entries: map<string, real>, c: Call): map<string, real> {
    var left := Purged(entries, c.at);
    if c.verdict.Ok? then left[c.digest := c.at + REPLAY_TTL_SECS] else left
  }

  lemma EntryIsThere(entries: map<string, real>, calls: seq<Call>, c: Call, i: nat)
    requires Agrees(entries, calls) && c.verdict == Judged(calls, c.digest, c.at)
    requires i <= |calls| && Kept(calls + [c], i)
    ensures var now := EntriesAfter(entries, c);
            var d := (calls + [c])[i];
            d.digest in now && now[d.digest] == d.at + REPLAY_TTL_SECS
  {
    hide Kept;
    PurgedIsLive(entries, calls, c.at);
    KeptIsAccepted(calls + [c], i);
    if i < |calls| {
      KeptAfter(calls, c, i);
      LiveIsKept(calls, i, c.at);
      assert calls[i].digest in LiveDigests(calls, c.at);
    }
  }

  lemma KeptIsAccepted(calls: seq<Call>, i: nat)
    requires i < |calls| && Kept(calls, i)
    ensures calls[i].verdict.Ok?
  {
  }

  lemma LiveIsKept(calls: seq<Call>, i: nat, now: real)
    requires i < |calls| && Live(calls, i, now)
    ensures Kept(calls, i)
  {
  }

  lemma AgreesAfter(entries: map<string, real>, calls: seq<Call>, c: Call)
    requires Agrees(entries, calls) && c.verdict == Judged(calls, c.digest, c.at)
    ensures Agrees(EntriesAfter(entries, c), calls + [c])
  {
    hide Judged, Live;
    var now := EntriesAfter(entries, c);
    var more := calls + [c];
    forall i | 0 <= i < |more| && Kept(more, i)
      ensures more[i].digest in now && now[more[i].digest] == more[i].at + REPLAY_TTL_SECS
    {
      EntryIsThere(entries, calls, c, i);
    }
    PurgedIsLive(entries, calls, c.at);
    forall d | d in now ensures exists i :: 0 <= i < |more| && Kept(more, i) && more[i].digest == d {
      if d in Purged(entries, c.at) {
        assert d in LiveDigests(calls, c.at);
        var i :| 0 <= i < |calls| && Live(calls, i, c.at) && calls[i].digest == d;
        KeptAfter(calls, c, i);
        assert more[i].digest == d;
      } else {
        assert Kept(more, |calls|) && more[|calls|].digest == d;
      }
    }
  }

  lemma LegalAfter(calls: seq<Call>, c: Call)
    requires Legal(calls) && c.verdict == Judged(calls, c.digest, c.at)
    ensures Legal(calls + [c])
  {
    var more := calls + [c];
    forall j | 0 <= j < |more| ensures more[j].verdict == Judged(more[..j], more[j].digest, more[j].at) {
      assert more[..j] == if j < |calls| then calls[..j] else calls;
    }
  }

  lemma PurgedIsSmaller(entries: map<string, real>, now: real)
    ensures |Purged(entries, now)| <= |entries|
  {
    var a, b := Purged(entries, now), entries;
    assert a.Keys <= b.Keys;
    SubsetIsSmaller(a.Keys, b.Keys);
    assert |a| == |a.Keys| && |b| == |b.Keys|;
  }

  lemma {:induction false} SubsetIsSmaller(a: set<string>, b: set<string>)
    requires a <= b
    ensures |a| <= |b|
    decreases a
  {
    if x :| x in a {
      SubsetIsSmaller(a - {x}, b - {x});
    }
  }

  class ReplayCache {
    var entries: map<string, real>
    ghost var calls: seq<Call>

    ghost predicate Valid()
      reads this
    {
      Legal(calls) && Agrees(entries, calls) && |entries| <= REPLAY_MAX_ENTRIES
    }

    constructor ()
      ensures Valid() && calls == [] && entries == map[]
    {
      entries := map[];
      calls := [];
    }

    /** accept_at: answers what the whole history calls for, with a bounded map. */
    method AcceptAt(digest: string, now: real) returns (r: Verdict)
      requires Valid()
      modifies this
      ensures Valid() && r == Judged(old(calls), digest, now) && calls == old(calls) + [Call(digest, now, r)]
    {
      hide Agrees, Legal, LiveDigests, Purged;
      PurgedIsLive(entries, calls, now);
      PurgedIsSmaller(entries, now);
      ghost var was := entries;
      entries := Purged(entries, now);
      assert |entries| == |entries.Keys|;
      if digest in entries {
        r := Err(AuthFailure.Replay);
      } else if |entries| >= REPLAY_MAX_ENTRIES {
        r := Err(Capacity);
      } else {
        entries := entries[digest := now + REPLAY_TTL_SECS];
        r := Ok(());
      }
      assert entries == EntriesAfter(was, Call(digest, now, r));
      AgreesAfter(was, calls, Call(digest, now, r));
      LegalAfter(calls, Call(digest, now, r));
      calls := calls + [Call(digest, now, r)];
    }
  }

  // ---------- what every history keeps ----------

  lemma RefusedUntilExpired(calls: seq<Call>, i: nat, j: nat)
    requires Legal(calls) && i < j < |calls| && calls[i].verdict.Ok? && calls[i].digest == calls[j].digest
    requires forall k :: i < k <= j ==> calls[k].at < calls[i].at + REPLAY_TTL_SECS
    ensures calls[j].verdict == Err(AuthFailure.Replay)
  {
    assert Live(calls[..j], i, calls[j].at);
    assert calls[..j][i].digest in LiveDigests(calls[..j], calls[j].at);
  }

  /** Between two acceptances of one digest lies a call at which the first had expired; so under
      a clock that does not step back they are at least the time to live apart. */
  lemma AcceptedTwiceIsApart(calls: seq<Call>, i: nat, j: nat)
    requires Legal(calls) && i < j < |calls|
    requires calls[i].verdict.Ok? && calls[j].verdict.Ok? && calls[i].digest == calls[j].digest
    ensures exists k :: i < k <= j && calls[k].at >= calls[i].at + 360.0
    ensures Steady(calls) ==> calls[j].at >= calls[i].at + 360.0
  {
    if forall k :: i < k <= j ==> calls[k].at < calls[i].at + REPLAY_TTL_SECS {
      RefusedUntilExpired(calls, i, j);
    }
  }

  /** The answer, in full: an acceptance counts until a clock reading 360 s after it has been seen. A
      digest is refused as a replay exactly if an acceptance of it counts; else it passes exactly if
      fewer than 100000 digests have one that counts. */
  lemma JudgedMeans(calls: seq<Call>, digest: string, now: real)
    ensures var counts := set i | 0 <= i < |calls| && calls[i].verdict.Ok? && now < calls[i].at + 360.0
                                  && (forall k :: i < k < |calls| ==> calls[k].at < calls[i].at + 360.0) :: calls[i].digest;
            && (Judged(calls, digest, now) == Err(AuthFailure.Replay) <==> digest in counts)
            && (Judged(calls, digest, now) == Ok(()) <==> digest !in counts && |counts| < 100000)
            && (Judged(calls, digest, now) == Err(Capacity) <==> digest !in counts && |counts| >= 100000)
  {
    var counts := set i | 0 <= i < |calls| && calls[i].verdict.Ok? && now < calls[i].at + 360.0
                          && (forall k :: i < k < |calls| ==> calls[k].at < calls[i].at + 360.0) :: calls[i].digest;
    assert counts == LiveDigests(calls, now) by {
      forall i | 0 <= i < |calls|
        ensures Live(calls, i, now) <==> calls[i].verdict.Ok? && now < calls[i].at + 360.0
                                         && forall k :: i < k < |calls| ==> calls[k].at < calls[i].at + 360.0
      {
      }
    }
  }

  /** Under a steady clock the cache's answer is the one of the simple rule: a digest is refused
      exactly while an acceptance of it is younger than 360 s; else it passes exactly if fewer than
      100000 digests were accepted within that time. */
  lemma SteadyAnswers(calls: seq<Call>, j: nat)
    requires Legal(calls) && Steady(calls) && j < |calls|
    ensures var young := set i | 0 <= i < j && calls[i].verdict.Ok? && calls[j].at - calls[i].at < 360.0 :: calls[i].digest;
            && (calls[j].verdict == Err(AuthFailure.Replay) <==> calls[j].digest in young)
            && (calls[j].verdict == Ok(()) <==> calls[j].digest !in young && |young| < 100000)
            && (calls[j].verdict == Err(Capacity) <==> calls[j].digest !in young && |young| >= 100000)
  {
    var before, now := calls[..j], calls[j].at;
    JudgedMeans(before, calls[j].digest, now);
    var counts := set i | 0 <= i < |before| && before[i].verdict.Ok? && now < before[i].at + 360.0
                          && (forall k :: i < k < |before| ==> before[k].at < before[i].at + 360.0) :: before[i].digest;
    var young := set i | 0 <= i < j && calls[i].verdict.Ok? && now - calls[i].at < 360.0 :: calls[i].digest;
    assert counts == young by {
      assert forall k :: 0 <= k < j ==> before[k].at <= now;
      assert forall i :: 0 <= i < j ==> before[i] == calls[i];
    }
  }
}
