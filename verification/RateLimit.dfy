/** The fixed-window limiter of API keys (_consume_rate_limit in app/api_key_auth.py, with the
    defaults of sql/016_api_keys.sql).

    Times are microseconds of one clock; the database's NOW() and the program's now are the same
    instant. */
module RateLimit {
  const SECOND: nat := 1_000_000
  const MINUTE: nat := 60 * SECOND

  datatype Row = Row(start: nat, count: nat)

  // date_trunc('minute', t)
  function Truncated(t: nat): nat {
    t - t % MINUTE
  }

  datatype Outcome = Outcome(row: Row, granted: bool, remaining: nat, retryAfter: nat)

  function Left(limit: nat, used: nat): nat {
    if limit <= used then 0 else limit - used
  }

  // One request against a row that exists; before its window the clock has not been.
  function Consume(row: Row, now: nat, limit: nat): Outcome {
    if now >= row.start + MINUTE then Outcome(Row(Truncated(now), 1), true, Left(limit, 1), 0)
    else if row.count >= limit then Outcome(row, false, 0, Wait(row.start + MINUTE - now))
    else Outcome(row.(count := row.count + 1), true, Left(limit, row.count + 1), 0)
  }

  // max(1, int(60 - elapsed)), in whole seconds
  function Wait(left: nat): nat {
    if left / SECOND < 1 then 1 else left / SECOND
  }

  function RowAt(rows: map<string, Row>, key: string, now: nat): Row {
    if key in rows then rows[key] else Row(Truncated(now), 0)
  }

  class Limiter {
    var rows: map<string, Row>

    constructor ()
      ensures rows == map[]
    {
      rows := map[];
    }

    // The row is made if it is missing, locked, and then updated at most once.
    method ConsumeRateLimit(key: string, now: nat, limit: nat) returns (remaining: nat, retryAfter: nat)
      modifies this
      ensures var o := Consume(RowAt(old(rows), key, now), now, limit);
        rows == old(rows)[key := o.row] && remaining == o.remaining && retryAfter == o.retryAfter
      ensures retryAfter == 0 <==> Consume(RowAt(old(rows), key, now), now, limit).granted
    {
      if key !in rows {
        rows := rows[key := Row(Truncated(now), 0)];
      }
      var row := rows[key];
      if now - row.start >= MINUTE {
        rows := rows[key := Row(Truncated(now), 1)];
        return Left(limit, 1), 0;
      }
      var left := row.start + MINUTE - now;
      var wait := if left / SECOND < 1 then 1 else left / SECOND;
      if row.count >= limit {
        return 0, wait;
      }
      rows := rows[key := row.(count := row.count + 1)];
      return Left(limit, row.count + 1), 0;
    }
  }

  /* ---- Whole traces of one key ---- */

  predicate Ordered(times: seq<nat>) {
    forall i, j :: 0 <= i < j < |times| ==> times[i] <= times[j]
  }

  // The row after the requests, which the first of them makes.
  function After(times: seq<nat>, limit: nat): Row
    requires times != []
  {
    var n := |times| - 1;
    Consume(Before(times, limit), times[n], limit).row
  }

  // The row the last request finds.
  function Before(times: seq<nat>, limit: nat): Row
    requires times != []
    decreases |times|, 0
  {
    var n := |times| - 1;
    if n == 0 then Row(Truncated(times[n]), 0)
    else
      var front := times[..n];
      Consume(Before(front, limit), front[n - 1], limit).row
  }

  predicate LastGranted(times: seq<nat>, limit: nat)
    requires times != []
  {
    Consume(Before(times, limit), times[|times| - 1], limit).granted
  }

  // The rows after requests of several keys, and the times of those of one key.
  function RowsAfter(requests: seq<(string, nat)>, limits: string -> nat): map<string, Row> {
    if requests == [] then map[]
    else
      var rows, (key, now) := RowsAfter(requests[..|requests| - 1], limits), requests[|requests| - 1];
      rows[key := Consume(RowAt(rows, key, now), now, limits(key)).row]
  }

  function TimesOf(requests: seq<(string, nat)>, key: string): seq<nat> {
    if requests == [] then []
    else
      var last := requests[|requests| - 1];
      TimesOf(requests[..|requests| - 1], key) + if last.0 == key then [last.1] else []
  }

  // The row of a key is that of its own trace: no key uses up the requests of another, and a key that
  // was not seen has no row.
  lemma {:induction false} KeysAreSeparate(requests: seq<(string, nat)>, limits: string -> nat, key: string)
    ensures var rows, times := RowsAfter(requests, limits), TimesOf(requests, key);
      (key in rows <==> times != []) && (times != [] ==> rows[key] == After(times, limits(key)))
  {
    if requests != [] {
      var front, last := requests[..|requests| - 1], requests[|requests| - 1];
      KeysAreSeparate(front, limits, key);
      if last.0 == key {
        var before := TimesOf(front, key);
        var times := before + [last.1];
        assert times[..|before|] == before && TimesOf(requests, key) == times;
        assert times[|times| - 1] == last.1;
        assert RowAt(RowsAfter(front, limits), key, last.1) == Before(times, limits(key));
      } else {
        assert TimesOf(front, key) + [] == TimesOf(front, key);
      }
    }
  }

  // How many requests of the trace were granted at from or later and before to.
  function Grants(times: seq<nat>, limit: nat, from: nat, to: nat): nat {
    if times == [] then 0
    else
      Grants(times[..|times| - 1], limit, from, to)
      + if LastGranted(times, limit) && from <= times[|times| - 1] < to then 1 else 0
  }

  lemma {:induction false} NoGrantsLater(times: seq<nat>, limit: nat, from: nat, to: nat)
    requires forall i :: 0 <= i < |times| ==> times[i] < from
    ensures Grants(times, limit, from, to) == 0
  {
    if times != [] {
      NoGrantsLater(times[..|times| - 1], limit, from, to);
    }
  }

  function Cap(limit: nat): nat {
    if limit == 0 then 1 else limit
  }

  lemma TruncatedIsMinute(t: nat)
    ensures Truncated(t) <= t < Truncated(t) + MINUTE && Truncated(t) % MINUTE == 0
  {
  }

  lemma SameMinute(a: nat, b: nat, t: nat)
    requires a % MINUTE == 0 && b % MINUTE == 0 && a <= t < a + MINUTE && b <= t < b + MINUTE
    ensures a == b
  {
  }

  // After every request the row is about the minute of that request, and counts exactly what was
  // granted in it, at most the limit.
  lemma {:induction false} RowCountsMinute(times: seq<nat>, limit: nat)
    requires times != [] && Ordered(times)
    ensures var row := After(times, limit);
      row.start == Truncated(times[|times| - 1]) && row.count <= Cap(limit)
      && row.count == Grants(times, limit, row.start, row.start + MINUTE)
  {
    var n := |times| - 1;
    var front, now, row := times[..n], times[n], Before(times, limit);
    TruncatedIsMinute(now);
    if n > 0 {
      assert row == After(front, limit);
      RowCountsMinute(front, limit);
      TruncatedIsMinute(front[n - 1]);
      if now >= row.start + MINUTE {
        MinutesApart(row.start, now);
        NoGrantsLater(front, limit, Truncated(now), Truncated(now) + MINUTE);
      } else {
        SameMinute(row.start, Truncated(now), now);
      }
    }
  }

  // The row that a request finds is about its minute and counts what that has seen, or is older
  // and the minute has seen nothing.
  lemma RowFound(times: seq<nat>, limit: nat)
    requires times != [] && Ordered(times)
    ensures var now := times[|times| - 1];
      IsFound(Before(times, limit), now, Grants(times[..|times| - 1], limit, Truncated(now), Truncated(now) + MINUTE))
  {
    var n := |times| - 1;
    var front, now := times[..n], times[n];
    if n == 0 {
      TruncatedIsMinute(now);
    } else {
      var row := After(front, limit);
      assert Before(times, limit) == row;
      RowCountsMinute(front, limit);
      assert front[n - 1] <= now;
      if now >= Truncated(front[n - 1]) + MINUTE {
        NothingYet(front, limit, now);
      }
      FoundAfter(row, front[n - 1], now, Grants(front, limit, Truncated(now), Truncated(now) + MINUTE));
    }
  }

  lemma NothingYet(times: seq<nat>, limit: nat, now: nat)
    requires times != [] && Ordered(times) && now >= Truncated(times[|times| - 1]) + MINUTE
    ensures Grants(times, limit, Truncated(now), Truncated(now) + MINUTE) == 0
  {
    var last := times[|times| - 1];
    TruncatedIsMinute(last);
    MinutesApart(Truncated(last), now);
    NoGrantsLater(times, limit, Truncated(now), Truncated(now) + MINUTE);
  }

  lemma FoundAfter(row: Row, last: nat, now: nat, seen: nat)
    requires last <= now && row.start == Truncated(last)
    requires Truncated(last) == Truncated(now) ==> seen == row.count
    requires now >= Truncated(last) + MINUTE ==> seen == 0
    ensures IsFound(row, now, seen)
  {
    TruncatedIsMinute(now);
    TruncatedIsMinute(last);
    if now < row.start + MINUTE {
      SameMinute(row.start, Truncated(now), now);
    }
  }

  predicate IsFound(row: Row, now: nat, before: nat) {
    if now >= row.start + MINUTE then before == 0 else row.start == Truncated(now) && row.count == before
  }

  lemma FoundGrants(row: Row, now: nat, limit: nat, before: nat)
    requires IsFound(row, now, before) && limit >= 1
    ensures var o := Consume(row, now, limit);
      && (o.granted <==> before < limit)
      && (o.granted ==> o.remaining == limit - before - 1 && o.retryAfter == 0)
      && (!o.granted ==> o.remaining == 0 && o.retryAfter == Wait(Truncated(now) + MINUTE - now))
  {
    TruncatedIsMinute(now);
  }

  // A request is granted exactly while its minute has seen fewer grants than the limit; then it is
  // told how many are left, and otherwise how many whole seconds the minute still has, or one.
  lemma GrantedExactly(times: seq<nat>, limit: nat)
    requires times != [] && Ordered(times) && limit >= 1
    ensures var now := times[|times| - 1];
      var minute, o := Truncated(now), Consume(Before(times, limit), now, limit);
      var before := Grants(times[..|times| - 1], limit, minute, minute + MINUTE);
      && (LastGranted(times, limit) <==> before < limit)
      && (o.granted ==> o.remaining == limit - before - 1 && o.retryAfter == 0)
      && (!o.granted ==> o.remaining == 0 && o.retryAfter == Wait(minute + MINUTE - now))
  {
    var now := times[|times| - 1];
    RowFound(times, limit);
    FoundGrants(Before(times, limit), now, limit, Grants(times[..|times| - 1], limit, Truncated(now), Truncated(now) + MINUTE));
  }

  lemma WaitIs(left: nat)
    requires left > 0
    ensures Wait(left) * 1_000_000 <= left < (Wait(left) + 1) * 1_000_000 || (left < 1_000_000 && Wait(left) == 1)
  {
    assert left == left / SECOND * SECOND + left % SECOND;
  }

  lemma MinutesApart(start: nat, now: nat)
    requires start % MINUTE == 0 && now >= start + MINUTE
    ensures Truncated(now) >= start + MINUTE
  {
  }

  // No minute sees more grants than the limit.
  lemma {:induction false} MinuteBound(times: seq<nat>, limit: nat, minute: nat)
    requires Ordered(times) && minute % MINUTE == 0
    ensures Grants(times, limit, minute, minute + MINUTE) <= Cap(limit)
  {
    if times != [] {
      var n := |times| - 1;
      MinuteBound(times[..n], limit, minute);
      if minute <= times[n] < minute + MINUTE {
        TruncatedIsMinute(times[n]);
        SameMinute(minute, Truncated(times[n]), times[n]);
        RowCountsMinute(times, limit);
      }
    }
  }

  lemma {:induction false} GrantsCovered(times: seq<nat>, limit: nat, from: nat, to: nat, a: nat, b: nat, c: nat)
    requires a <= from && to <= c && a <= b <= c
    ensures Grants(times, limit, from, to) <= Grants(times, limit, a, b) + Grants(times, limit, b, c)
  {
    if times != [] {
      GrantsCovered(times[..|times| - 1], limit, from, to, a, b, c);
    }
  }

  // Any half-open interval of sixty seconds sees at most twice the limit.
  lemma AnyMinuteBound(times: seq<nat>, limit: nat, from: nat)
    requires Ordered(times) && limit >= 1
    ensures Grants(times, limit, from, from + MINUTE) <= 2 * limit
  {
    var minute := Truncated(from);
    TruncatedIsMinute(from);
    MinuteBound(times, limit, minute);
    MinuteBound(times, limit, minute + MINUTE);
    GrantsCovered(times, limit, from, from + MINUTE, minute, minute + MINUTE, minute + 2 * MINUTE);
  }

  // The bound is reached: a full minute at its end and a full one after it.
  lemma TwiceIsReached()
    ensures var times := [MINUTE - 1, MINUTE]; Ordered(times) && Grants(times, 1, MINUTE - 1, 2 * MINUTE - 1) == 2
  {
    var times := [MINUTE - 1, MINUTE];
    assert times[..1] == [MINUTE - 1] && times[..1][..0] == [];
    assert Before(times[..1], 1) == Row(0, 0);
    assert Grants(times[..1], 1, MINUTE - 1, 2 * MINUTE - 1) == 1;
  }

  // Waiting as told is enough exactly when what is left is less than a second or whole seconds.
  lemma RetryAfterIsEnough(row: Row, now: nat, limit: nat)
    requires row.start <= now && !Consume(row, now, limit).granted
    ensures var o := Consume(row, now, limit);
      var left := row.start + MINUTE - now;
      && 1 <= o.retryAfter <= 60
      && (Consume(o.row, now + o.retryAfter * SECOND, limit).granted <==> left < SECOND || left % SECOND == 0)
  {
    var left := row.start + MINUTE - now;
    assert left == left / SECOND * SECOND + left % SECOND;
  }
}
