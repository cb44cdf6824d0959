/**
  The failure log of `tick` in `packages/nostr-bridge/src/main.ts`: dense at
  first, then sparse, but never quiet for an hour while the polls keep failing.
*/
module LogThrottle {
  /** Milliseconds. */
  const MAX_LOG_GAP := 3600000.0

  // ------------------------------------------------------------ powers of two

  /** Bitwise and of two counts. */
  function And(a: nat, b: nat): nat {
    if a == 0 || b == 0 then 0 else 2 * And(a / 2, b / 2) + (a % 2) * (b % 2)
  }

  /** The test the source makes of a count. */
  predicate IsPowerOfTwo(n: nat)
    requires n > 0
  {
    And(n, n - 1) == 0
  }

  function Power(k: nat): nat {
    if k == 0 then 1 else 2 * Power(k - 1)
  }

  /** How often a count can be halved: the largest `k` whose power it reaches. */
  function Log2(n: nat): nat
    requires n > 0
  {
    if n == 1 then 0 else 1 + Log2(n / 2)
  }

  lemma {:induction false} Log2Bounds(n: nat)
    requires n > 0
    ensures Power(Log2(n)) <= n < Power(Log2(n) + 1)
  {
    if n > 1 { Log2Bounds(n / 2); }
  }

  lemma Bit(b: nat)
    requires b < 2
    ensures b * b == b
  {
  }

  lemma {:induction false} AndOfSame(n: nat)
    ensures And(n, n) == n
  {
    if n > 0 {
      AndOfSame(n / 2);
      Bit(n % 2);
    }
  }

  /** The test holds of the powers of two, and of nothing else. */
  lemma {:induction false} TestIsExact(n: nat)
    requires n > 0
    ensures IsPowerOfTwo(n) <==> n == Power(Log2(n))
  {
    if n > 1 {
      TestIsExact(n / 2);
      if n % 2 == 0 {
        assert (n - 1) / 2 == n / 2 - 1 && (n - 1) % 2 == 1;
      } else {
        assert (n - 1) / 2 == n / 2;
        AndOfSame(n / 2);
      }
    }
  }

  /** One more count makes one more power of two exactly where the logarithm grows. */
  lemma {:induction false} Log2Grows(n: nat)
    requires n > 1
    ensures Log2(n) == Log2(n - 1) + if IsPowerOfTwo(n) then 1 else 0
  {
    TestIsExact(n);
    Log2Bounds(n);
    Log2Bounds(n - 1);
    PowerUp(Log2(n), Log2(n - 1));
    PowerUp(Log2(n) + 1, Log2(n - 1));
    PowerUp(Log2(n - 1) + 1, Log2(n));
    PowerUp(Log2(n - 1) + 2, Log2(n));
  }

  lemma {:induction false} PowerUp(j: nat, k: nat)
    ensures j <= k ==> Power(j) <= Power(k)
  {
    if j < k { PowerUp(j, k - 1); }
  }

  // ------------------------------------------------------------------ the log

  /** The times of the lines that failures at these times log, one after the other since a success. */
  function Logged(times: seq<real>): (lines: seq<real>)
    ensures times != [] ==> lines != []
  {
    if times == [] then []
    else
      var now, before := times[|times| - 1], Logged(times[..|times| - 1]);
      if IsPowerOfTwo(|times|) || now - before[|before| - 1] >= MAX_LOG_GAP then before + [now] else before
  }

  /** The clock does not go back. */
  ghost predicate Monotonic(times: seq<real>) {
    forall j, k :: 0 <= j < k < |times| ==> times[j] <= times[k]
  }

  /** One line a power of two, and for every other an hour gone by. */
  lemma {:induction false} FewLines(times: seq<real>)
    requires times != [] && Monotonic(times)
    ensures Logged(times)[0] == times[0]
    ensures times[0] <= Logged(times)[|Logged(times)| - 1] <= times[|times| - 1]
    ensures (|Logged(times)| - Log2(|times|) - 1) as real * MAX_LOG_GAP <= Logged(times)[|Logged(times)| - 1] - times[0]
    ensures |Logged(times)| > Log2(|times|)
    decreases |times|
  {
    if |times| > 1 {
      FewLines(times[..|times| - 1]);
      Log2Grows(|times|);
    } else {
      assert times[..0] == [];
    }
  }

  /** No failure comes an hour or more after the last line before it. */
  lemma {:induction false} NoneMissing(times: seq<real>, k: nat)
    requires k < |times| && Monotonic(times)
    ensures exists l :: 0 <= l < |Logged(times)| && Logged(times)[l] <= times[k] < Logged(times)[l] + MAX_LOG_GAP
    decreases |times|
  {
    var lines, init := Logged(times), times[..|times| - 1];
    if k < |times| - 1 {
      NoneMissing(init, k);
      var l :| 0 <= l < |Logged(init)| && Logged(init)[l] <= init[k] < Logged(init)[l] + MAX_LOG_GAP;
      assert lines[l] == Logged(init)[l];
    } else {
      FewLines(times);
      assert lines[|lines| - 1] <= times[k] < lines[|lines| - 1] + MAX_LOG_GAP;
    }
  }

  /** The first failure, the second, the fourth and so on are logged, whenever they come. */
  lemma {:induction false} PowersLogged(times: seq<real>, j: nat)
    requires Power(j) <= |times|
    ensures Power(j) > 0 && times[Power(j) - 1] in Logged(times)
    decreases |times|
  {
    PowerUp(0, j);
    var n := |times|;
    if Power(j) < n {
      PowersLogged(times[..n - 1], j);
    } else {
      TestIsExact(n);
      Log2OfPower(j);
      assert Logged(times)[|Logged(times)| - 1] == times[n - 1];
    }
  }

  lemma {:induction false} Log2OfPower(j: nat)
    ensures Power(j) > 0 && Log2(Power(j)) == j
  {
    if j > 0 { Log2OfPower(j - 1); }
  }

  class Poller {
    var consecutiveFailures: nat
    var lastLoggedAt: real
    /** Since the last success: when polls failed, and when a line was logged. */
    ghost var times: seq<real>
    ghost var lines: seq<real>

    constructor ()
      ensures Valid() && times == []
    {
      consecutiveFailures, lastLoggedAt := 0, 0.0;
      times, lines := [], [];
    }

    /** The two fields are enough to log what is to be logged. */
    ghost predicate Valid()
      reads this
    {
      && consecutiveFailures == |times| && lines == Logged(times)
      && lastLoggedAt == if times == [] then 0.0 else lines[|lines| - 1]
    }

    /** A poll that came through: the count starts again. */
    method Succeeded()
      requires Valid()
      modifies this
      ensures Valid() && times == []
    {
      if consecutiveFailures > 0 {
        consecutiveFailures, lastLoggedAt := 0, 0.0;
        times, lines := [], [];
      }
    }

    /** A poll that failed at a time of the monotonic clock: logged at a power of two, and when the gap has passed. */
    method Failed(now: real) returns (logged: bool)
      requires Valid()
      modifies this
      ensures Valid() && times == old(times) + [now] && lines == old(lines) + if logged then [now] else []
      ensures logged <==> |times| == Power(Log2(|times|)) || now - old(lastLoggedAt) >= MAX_LOG_GAP
      ensures now - lastLoggedAt < MAX_LOG_GAP
    {
      consecutiveFailures := consecutiveFailures + 1;
      times := times + [now];
      assert times[..|times| - 1] == old(times);
      TestIsExact(consecutiveFailures);
      logged := IsPowerOfTwo(consecutiveFailures) || now - lastLoggedAt >= MAX_LOG_GAP;
      if logged {
        lastLoggedAt := now;
        lines := lines + [now];
      }
    }

    /** Failures one after the other: few lines, and none of them missing for an hour. */
    method Outage(failures: seq<real>) returns (printed: seq<real>)
      requires Valid() && times == [] && failures != [] && Monotonic(failures)
      modifies this
      ensures Valid() && times == failures && printed == Logged(failures)
      ensures (|printed| - Log2(|failures|) - 1) as real * MAX_LOG_GAP <= failures[|failures| - 1] - failures[0]
      ensures forall k :: 0 <= k < |failures| ==> exists l :: 0 <= l < |printed| && printed[l] <= failures[k] < printed[l] + MAX_LOG_GAP
      ensures forall j :: j >= 0 && 0 < Power(j) <= |failures| ==> failures[Power(j) - 1] in printed
    {
      printed := [];
      for i := 0 to |failures|
        invariant Valid() && times == failures[..i] && printed == lines
      {
        var logged := Failed(failures[i]);
        if logged { printed := printed + [failures[i]]; }
        assert failures[..i + 1] == failures[..i] + [failures[i]];
      }
      assert failures[..|failures|] == failures;
      FewLines(failures);
      forall j | j >= 0 && 0 < Power(j) <= |failures| ensures failures[Power(j) - 1] in printed { PowersLogged(failures, j); }
      forall k | 0 <= k < |failures| ensures exists l :: 0 <= l < |printed| && printed[l] <= failures[k] < printed[l] + MAX_LOG_GAP {
        NoneMissing(failures, k);
      }
    }
  }
}
