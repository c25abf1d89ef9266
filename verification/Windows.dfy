/** Aligned time windows, as the rate limiter and the scheduler compute them. */
module Windows {
  import opened Collections

  function WindowStart(now: nat, window: nat): (start: nat)
    requires window > 0
    ensures start <= now < start + window
  {
    now / window * window
  }

  lemma {:induction false} MultiplesAreAligned(t: nat, now: nat, a: nat, b: nat, w: nat)
    requires a * w <= now < a * w + w && b * w <= t < b * w + w && now <= t
    ensures a * w <= b * w
    ensures b * w == a * w <==> t < a * w + w
    ensures t < now + w ==> b * w == a * w || b * w == a * w + w
  {
    Multiples(a, b, w);
    Multiples(b, a, w);
  }

  lemma {:induction false} WindowsAreAligned(t: nat, now: nat, window: nat)
    requires window > 0 && now <= t
    ensures WindowStart(now, window) <= WindowStart(t, window)
    ensures WindowStart(t, window) == WindowStart(now, window) <==> t < WindowStart(now, window) + window
    ensures t < now + window ==>
              WindowStart(t, window) == WindowStart(now, window) || WindowStart(t, window) == WindowStart(now, window) + window
  {
    var a, b := now / window, t / window;
    assert WindowStart(now, window) == a * window && WindowStart(t, window) == b * window;
    hide WindowStart;
    MultiplesAreAligned(t, now, a, b, window);
  }

  /** Windows begin at the multiples of their length. */
  lemma {:induction false} WindowsStartAtMultiples(now: nat, window: nat)
    requires window > 0
    ensures exists k: nat :: WindowStart(now, window) == k * window
  {
    assert WindowStart(now, window) == (now / window) * window;
  }
}
