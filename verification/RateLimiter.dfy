/**
 The token bucket in front of the admin endpoints, and how many calls it lets
 through in any window of time.
 */
module RateLimiter {

  /** The bucket as a value: its rate and size, the tokens in it, and when it was last used. */
  datatype Bucket = Bucket(rate: real, burst: nat, tokens: real, last: real)

  ghost predicate Good(b: Bucket) {
    b.rate > 0.0 && b.burst >= 1 && 0.0 <= b.tokens <= b.burst as real
  }

  /** The tokens that flow in between two times. */
  function Inflow(rate: real, from: real, to: real): real {
    (to - from) * rate
  }

  /** At most `base` plus `rate` per second between two times. */
  ghost predicate WithinRate(x: real, base: real, rate: real, from: real, to: real) {
    x <= base + rate * (to - from)
  }

  lemma InflowIsRate(x: real, base: real, rate: real, from: real, to: real)
    ensures WithinRate(x, base, rate, from, to) <==> x <= base + Inflow(rate, from, to)
  {
  }

  lemma InflowAdds(rate: real, r: real, s: real, t: real)
    ensures Inflow(rate, r, t) == Inflow(rate, r, s) + Inflow(rate, s, t)
  {
  }

  lemma InflowIsNotNegative(rate: real, s: real, t: real)
    requires rate > 0.0 && s <= t
    ensures Inflow(rate, s, t) >= 0.0
  {
  }

  lemma InflowOfOne(rate: real, s: real, t: real)
    requires rate > 0.0 && s + 1.0 / rate <= t
    ensures Inflow(rate, s, t) >= 1.0
  {
  }

  /** The tokens at time `now`, before any is taken. */
  function Refilled(b: Bucket, now: real): real {
    var t := b.tokens + Inflow(b.rate, b.last, now);
    if t > b.burst as real then b.burst as real else t
  }

  predicate Allows(b: Bucket, now: real) {
    Refilled(b, now) >= 1.0
  }

  function Call(b: Bucket, now: real): Bucket {
    b.(tokens := Refilled(b, now) - (if Allows(b, now) then 1.0 else 0.0), last := now)
  }

  /** The calls come in the order of their times, none before the bucket was last used. */
  ghost predicate InOrder(b: Bucket, times: seq<real>) {
    && (forall i | 0 <= i < |times| :: b.last <= times[i])
    && (forall i, j | 0 <= i < j < |times| :: times[i] <= times[j])
  }

  function After(b: Bucket, times: seq<real>): Bucket {
    if times == [] then b else Call(After(b, times[..|times| - 1]), times[|times| - 1])
  }

  /** How many of the calls are let through. */
  function Allowed(b: Bucket, times: seq<real>): nat {
    if times == [] then 0
    else
      var before := times[..|times| - 1];
      Allowed(b, before) + if Allows(After(b, before), times[|times| - 1]) then 1 else 0
  }

  lemma CallKeepsGood(b: Bucket, now: real)
    requires Good(b) && b.last <= now
    ensures Good(Call(b, now)) && Call(b, now).last == now
  {
    InflowIsNotNegative(b.rate, b.last, now);
  }

  lemma {:induction false} TokensStayInBucket(b: Bucket, times: seq<real>)
    requires Good(b) && InOrder(b, times)
    ensures Good(After(b, times))
    ensures After(b, times).last == if times == [] then b.last else times[|times| - 1]
    ensures After(b, times).rate == b.rate && After(b, times).burst == b.burst
  {
    if times != [] {
      TokensStayInBucket(b, times[..|times| - 1]);
      CallKeepsGood(After(b, times[..|times| - 1]), times[|times| - 1]);
    }
  }

  lemma {:induction false} PaidByInflow(b: Bucket, times: seq<real>)
    requires Good(b) && InOrder(b, times)
    ensures var a := After(b, times);
            Allowed(b, times) as real + a.tokens <= b.tokens + Inflow(b.rate, b.last, a.last)
  {
    if times != [] {
      var m := |times| - 1;
      PaidByInflow(b, times[..m]);
      TokensStayInBucket(b, times[..m]);
      var a := After(b, times[..m]);
      InflowAdds(b.rate, b.last, a.last, times[m]);
    }
  }

  /** Calls let through are paid for by the tokens at the start plus what flows in at the rate. */
  lemma {:induction false} AllowedArePaid(b: Bucket, times: seq<real>)
    requires Good(b) && InOrder(b, times)
    ensures var a := After(b, times);
            WithinRate(Allowed(b, times) as real + a.tokens, b.tokens, b.rate, b.last, a.last)
  {
    PaidByInflow(b, times);
    var a := After(b, times);
    InflowIsRate(Allowed(b, times) as real + a.tokens, b.tokens, b.rate, b.last, a.last);
  }

  lemma {:induction false} RunsCompose(b: Bucket, times: seq<real>, i: nat)
    requires i <= |times|
    ensures After(b, times) == After(After(b, times[..i]), times[i..])
    ensures Allowed(b, times) == Allowed(b, times[..i]) + Allowed(After(b, times[..i]), times[i..])
    decreases |times|
  {
    if i < |times| {
      var m := |times| - 1;
      RunsCompose(b, times[..m], i);
      assert times[..m][..i] == times[..i] && times[..m][i..] == times[i..][..m - i];
    } else {
      assert times[..i] == times;
    }
  }

  lemma WindowCount(b: Bucket, times: seq<real>, i: nat, j: nat)
    requires i <= j <= |times|
    ensures Allowed(b, times[..j]) == Allowed(b, times[..i]) + Allowed(After(b, times[..i]), times[i..j])
  {
    RunsCompose(b, times[..j], i);
    assert times[..j][..i] == times[..i] && times[..j][i..] == times[i..j];
  }

  lemma WindowInOrder(b: Bucket, times: seq<real>, i: nat, j: nat)
    requires Good(b) && InOrder(b, times) && i <= j <= |times|
    ensures var a := After(b, times[..i]);
            Good(a) && a.rate == b.rate && a.burst == b.burst && InOrder(a, times[i..j])
  {
    TokensStayInBucket(b, times[..i]);
  }

  lemma FirstRefillIsCapped(a: Bucket, times: seq<real>)
    requires Good(a) && InOrder(a, times) && times != []
    ensures Allowed(a, times) as real <= a.burst as real + Inflow(a.rate, times[0], times[|times| - 1])
  {
    var c := Call(a, times[0]);
    CallKeepsGood(a, times[0]);
    RunsCompose(a, times, 1);
    assert times[..1] == [times[0]] && times[..1][..0] == [];
    assert After(a, times[..1]) == c;
    PaidByInflow(c, times[1..]);
    TokensStayInBucket(c, times[1..]);
  }

  lemma WindowByInflow(b: Bucket, times: seq<real>, i: nat, j: nat)
    requires Good(b) && InOrder(b, times) && i < j <= |times|
    ensures (Allowed(b, times[..j]) - Allowed(b, times[..i])) as real
         <= b.burst as real + Inflow(b.rate, times[i], times[j - 1])
  {
    // From just before call `i`: its own refill cannot exceed the bucket.
    WindowCount(b, times, i, j);
    WindowInOrder(b, times, i, j);
    var a, window := After(b, times[..i]), times[i..j];
    FirstRefillIsCapped(a, window);
    assert window[0] == times[i] && window[|window| - 1] == times[j - 1];
  }

  /** In any window of any run, at most `burst` calls plus `rate` per second are let through. */
  lemma WindowIsBounded(b: Bucket, times: seq<real>, i: nat, j: nat)
    requires Good(b) && InOrder(b, times) && i < j <= |times|
    ensures var n := Allowed(b, times[..j]) - Allowed(b, times[..i]);
            WithinRate(n as real, b.burst as real, b.rate, times[i], times[j - 1])
  {
    WindowByInflow(b, times, i, j);
    var n := Allowed(b, times[..j]) - Allowed(b, times[..i]);
    InflowIsRate(n as real, b.burst as real, b.rate, times[i], times[j - 1]);
  }

  /** A call at least `1/rate` seconds after the previous one is never refused. */
  lemma PatientCallIsAllowed(b: Bucket, times: seq<real>, now: real)
    requires Good(b) && InOrder(b, times) && After(b, times).last + 1.0 / b.rate <= now
    ensures Allows(After(b, times), now)
  {
    TokensStayInBucket(b, times);
    InflowOfOne(b.rate, After(b, times).last, now);
  }

  /** The window from call `i` to a further call at `now` stays within the limit, that call counted. */
  ghost predicate RoomSince(b: Bucket, times: seq<real>, i: nat, now: real)
    requires i < |times|
  {
    var n := Allowed(b, times) - Allowed(b, times[..i]) + 1;
    WithinRate(n as real, b.burst as real, b.rate, times[i], now)
  }

  ghost predicate RoomByInflow(b: Bucket, times: seq<real>, i: nat, now: real)
    requires i < |times|
  {
    (Allowed(b, times) - Allowed(b, times[..i]) + 1) as real <= b.burst as real + Inflow(b.rate, times[i], now)
  }

  lemma SameRoom(b: Bucket, times: seq<real>, i: nat, now: real)
    requires i < |times|
    ensures RoomSince(b, times, i, now) <==> RoomByInflow(b, times, i, now)
  {
    var n := Allowed(b, times) - Allowed(b, times[..i]) + 1;
    InflowIsRate(n as real, b.burst as real, b.rate, times[i], now);
  }

  /** The tokens are those of a bucket that was full when call `i` came and was never cut off since. */
  ghost predicate FullAt(b: Bucket, times: seq<real>, i: nat)
    requires i < |times|
  {
    var a := After(b, times);
    var passed := Allowed(b, times) - Allowed(b, times[..i]);
    a.tokens == b.burst as real + Inflow(b.rate, times[i], a.last) - passed as real
  }

  lemma StillFullAt(b: Bucket, times: seq<real>, i: nat)
    requires i + 1 < |times| && FullAt(b, times[..|times| - 1], i)
    requires var a := After(b, times[..|times| - 1]);
             && a.rate == b.rate && a.burst == b.burst
             && a.tokens + Inflow(b.rate, a.last, times[|times| - 1]) <= b.burst as real
    ensures FullAt(b, times, i)
  {
    var m := |times| - 1;
    assert times[..m][..i] == times[..i];
    InflowAdds(b.rate, times[i], After(b, times[..m]).last, times[m]);
  }

  /** A bucket that starts full was last cut off at some call, and lost only paid tokens since. */
  lemma {:induction false} LastFull(b: Bucket, times: seq<real>) returns (i: nat)
    requires Good(b) && b.tokens == b.burst as real && InOrder(b, times) && times != []
    ensures i < |times| && FullAt(b, times, i)
  {
    var m := |times| - 1;
    var before, now := times[..m], times[m];
    TokensStayInBucket(b, before);
    var a := After(b, before);
    InflowIsNotNegative(b.rate, a.last, now);
    if before == [] || a.tokens + Inflow(b.rate, a.last, now) > b.burst as real {
      i := m;
      assert Inflow(b.rate, now, now) == 0.0;
    } else {
      i := LastFull(b, before);
      StillFullAt(b, times, i);
    }
  }

  lemma StaysInOrder(b: Bucket, times: seq<real>, now: real)
    requires Good(b) && InOrder(b, times + [now])
    ensures InOrder(b, times) && After(b, times).last <= now
  {
    var all := times + [now];
    assert all[|times|] == now && forall i | 0 <= i < |times| :: times[i] == all[i];
    TokensStayInBucket(b, times);
  }

  lemma AllowedHadRoom(b: Bucket, times: seq<real>, now: real, i: nat)
    requires Good(b) && InOrder(b, times + [now]) && Allows(After(b, times), now) && i < |times|
    ensures RoomByInflow(b, times, i, now)
  {
    var all := times + [now];
    assert all[..|times|] == times && all[..|all|] == all && all[..i] == times[..i];
    WindowByInflow(b, all, i, |all|);
  }

  lemma RoomIsAllowed(b: Bucket, times: seq<real>, now: real)
    requires Good(b) && b.tokens == b.burst as real && InOrder(b, times) && After(b, times).last <= now
    requires forall i | 0 <= i < |times| :: RoomByInflow(b, times, i, now)
    ensures Allows(After(b, times), now)
  {
    TokensStayInBucket(b, times);
    var a := After(b, times);
    InflowIsNotNegative(b.rate, a.last, now);
    if times != [] {
      var i := LastFull(b, times);
      assert RoomByInflow(b, times, i, now);
      InflowAdds(b.rate, times[i], a.last, now);
    }
  }

  /**
   From a full bucket, a call is let through exactly when no window that ends with it would
   exceed `burst` plus `rate` per second: the limiter is never stricter than its bound.
   */
  lemma AllowedIffRoom(b: Bucket, times: seq<real>, now: real)
    requires Good(b) && b.tokens == b.burst as real && InOrder(b, times + [now])
    ensures Allows(After(b, times), now) <==> forall i | 0 <= i < |times| :: RoomSince(b, times, i, now)
  {
    StaysInOrder(b, times, now);
    forall i | 0 <= i < |times| ensures RoomSince(b, times, i, now) <==> RoomByInflow(b, times, i, now) {
      SameRoom(b, times, i, now);
    }
    if Allows(After(b, times), now) {
      forall i | 0 <= i < |times| ensures RoomSince(b, times, i, now) { AllowedHadRoom(b, times, now, i); }
    } else if forall i | 0 <= i < |times| :: RoomSince(b, times, i, now) {
      RoomIsAllowed(b, times, now);
    }
  }

  class AdminRateLimiter {
    const ratePerSec: real
    const burst: nat
    var tokens: real
    var last: real

    ghost function View(): Bucket
      reads this
    {
      Bucket(ratePerSec, burst, tokens, last)
    }

    constructor (ratePerSec: real, burst: nat, now: real)
      ensures View() == Bucket(ratePerSec, burst, burst as real, now)
    {
      this.ratePerSec := ratePerSec;
      this.burst := burst;
      tokens := burst as real;
      last := now;
    }

    method AllowAt(now: real) returns (ok: bool)
      modifies this
      ensures ok == Allows(old(View()), now) && View() == Call(old(View()), now)
    {
      var elapsed := now - last;
      assert Inflow(ratePerSec, last, now) == elapsed * ratePerSec;
      last := now;
      tokens := tokens + elapsed * ratePerSec;
      if tokens > burst as real {
        tokens := burst as real;
      }
      if tokens < 1.0 {
        return false;
      }
      tokens := tokens - 1.0;
      return true;
    }
  }

  /** No limiter for a rate that is not positive; otherwise a full bucket of at least one token. */
  method NewAdminRateLimiter(ratePerSec: real, burst: int, now: real) returns (l: AdminRateLimiter?)
    ensures l == null <==> ratePerSec <= 0.0
    ensures l != null ==> fresh(l) && Good(l.View()) && l.tokens == l.burst as real && l.last == now
    ensures l != null ==> l.ratePerSec == ratePerSec && (burst > 0 ==> l.burst == burst)
    ensures l != null && burst <= 0 ==> l.burst == if ratePerSec < 1.0 then 1 else ratePerSec.Floor
  {
    if ratePerSec <= 0.0 {
      return null;
    }
    var size := burst;
    if size <= 0 {
      size := ratePerSec.Floor;
      if size < 1 {
        size := 1;
      }
    }
    l := new AdminRateLimiter(ratePerSec, size, now);
  }

  /** A missing limiter lets every call through. */
  method Allow(l: AdminRateLimiter?, now: real) returns (ok: bool)
    modifies l
    ensures l == null ==> ok
    ensures l != null ==> ok == Allows(old(l.View()), now) && l.View() == Call(old(l.View()), now)
  {
    if l == null {
      return true;
    }
    ok := l.AllowAt(now);
  }
}
