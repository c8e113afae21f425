/** The replay buffer of a terminal session (`appendLog`, server/lib/SessionManager.js): a sliding window. */
module LogBuffer {
  import opened Chunks

  const MAX_LOG_BUFFER_SIZE := 200 * 1024

  /** `s.slice(-n)` */
  function Last(s: string, n: nat): string {
    if |s| <= n then s else s[|s| - n..]
  }

  lemma LastOfSuffix(front: string, t: string, n: nat)
    requires |t| >= n
    ensures Last(front + t, n) == Last(t, n)
  {
  }

  lemma Regroup(a: string, b: string, c: string)
    ensures a + b + c == a + (b + c)
  {
  }

  /** A window of a window and what follows is the window of everything. */
  lemma LastOfLast(s: string, data: string, n: nat)
    ensures Last(Last(s, n) + data, n) == Last(s + data, n)
  {
    var window := Last(s, n);
    if |s| > n {
      var front := s[..|s| - n];
      assert s == front + window;
      Regroup(front, window, data);
      LastOfSuffix(front, window + data, n);
    }
  }

  class Log {
    var logBuffer: string
    /** Every chunk ever appended. */
    ghost var appended: seq<string>

    /** The buffer is the last 204800 characters of everything appended. */
    ghost predicate Valid()
      reads this
    {
      logBuffer == Last(Concat(appended), MAX_LOG_BUFFER_SIZE)
    }

    constructor ()
      ensures Valid() && appended == []
    {
      logBuffer, appended := "", [];
    }

    method AppendLog(data: string)
      requires Valid()
      modifies this
      ensures Valid() && appended == old(appended) + [data]
    {
      LastOfLast(Concat(appended), data, MAX_LOG_BUFFER_SIZE);
      ConcatAppend(appended, [data]);
      ConcatOne(data);
      logBuffer := logBuffer + data;
      if |logBuffer| > MAX_LOG_BUFFER_SIZE {
        logBuffer := logBuffer[|logBuffer| - MAX_LOG_BUFFER_SIZE..];
      }
      appended := appended + [data];
    }
  }
}
