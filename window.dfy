/**
 * The per-user share of the progress bar in `run_downloads`: user `i` of `n`
 * owns `[100·i/n, 100·(i+1)/n]`, and a step value in `[0, 100]` reported by
 * the downloader is mapped linearly into that share. Exact reals stand for
 * Python's floats.
 */
module Window {

  /** `(i / total_users) * 100` */
  function Start(i: nat, n: nat): real
    requires n > 0
  {
    (i as real / n as real) * 100.0
  }

  /** `((i + 1) / total_users) * 100` */
  function End(i: nat, n: nat): real
    requires n > 0
  {
    ((i + 1) as real / n as real) * 100.0
  }

  /** The share of user `i` lies inside the bar and ends where the next share starts. */
  lemma ShareBounds(i: nat, n: nat)
    requires i < n
    ensures 0.0 <= Start(i, n) < End(i, n) <= 100.0
    ensures End(i, n) == Start(i + 1, n)
    ensures i == 0 ==> Start(i, n) == 0.0
    ensures i == n - 1 ==> End(i, n) == 100.0
  {
    var r := 1.0 / n as real;
    assert i as real / n as real == i as real * r;
    assert (i + 1) as real / n as real == (i + 1) as real * r;
    assert n as real * r == 1.0;
    assert (i + 1) as real * r <= n as real * r by {
      assert (i + 1) as real <= n as real && r > 0.0;
    }
  }

  /** `user_progress_callback(step)`: the step value mapped into user `i`'s share. */
  function Total(i: nat, n: nat, step: int): (t: real)
    requires i < n
    ensures step == 0 ==> t == Start(i, n)
    ensures step == 100 ==> t == End(i, n)
    ensures 0 <= step <= 100 ==> Start(i, n) <= t <= End(i, n)
  {
    ShareBounds(i, n);
    var f := step as real / 100.0;
    var w := End(i, n) - Start(i, n);
    assert 0 <= step <= 100 ==> 0.0 <= f * w <= w by {
      if 0 <= step <= 100 {
        MulNonNegative(f, w);
        MulNonNegative(1.0 - f, w);
      }
    }
    Start(i, n) + f * w
  }

  lemma MulNonNegative(x: real, y: real)
    requires x >= 0.0 && y >= 0.0
    ensures x * y >= 0.0
  {
  }

  /** A larger step never maps to a smaller total. */
  lemma TotalMonotone(i: nat, n: nat, a: int, b: int)
    requires i < n && a <= b
    ensures Total(i, n, a) <= Total(i, n, b)
  {
    ShareBounds(i, n);
    var w := End(i, n) - Start(i, n);
    var fa, fb := a as real / 100.0, b as real / 100.0;
    MulNonNegative(fb - fa, w);
    assert fb * w - fa * w == (fb - fa) * w;
  }
}
