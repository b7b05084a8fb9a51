/** The in-memory login lockout: a pruned list of failure times per username. */
module MemoryLockout {
  import opened SlidingWindow

  /** `history` is every failure recorded for a username since its last reset; `clock` is the
      last reading of the process clock, which never runs backwards. */
  class LoginLockout {
    const maxFailures: int
    const window: int
    var failures: map<string, seq<int>>
    ghost var history: map<string, seq<int>>
    ghost var clock: int

    ghost function Past(username: string): seq<int>
      reads this
    {
      if username in history then history[username] else []
    }

    function Kept(username: string): seq<int>
      reads this
    {
      if username in failures then failures[username] else []
    }

    /** The list kept and the full history look alike through every window still to come. */
    ghost predicate SameFrom(username: string, cutoff: int)
      reads this
    {
      After(Kept(username), cutoff) == After(Past(username), cutoff)
    }

    ghost predicate Valid()
      reads this
    {
      forall u, cutoff :: cutoff >= clock - window ==> SameFrom(u, cutoff)
    }

    constructor (maxFailures: int, window: int, ghost start: int)
      ensures Valid() && history == map[] && clock == start
      ensures this.maxFailures == maxFailures && this.window == window
    {
      this.maxFailures, this.window := maxFailures, window;
      failures := map[];
      history, clock := map[], start;
    }

    /** Drops the failures that have left the window, and keeps the result. */
    method Prune(username: string, now: int) returns (kept: seq<int>)
      requires Valid() && clock <= now
      modifies this
      ensures Valid() && clock == now && history == old(history)
      ensures kept == After(Past(username), now - window)
      ensures failures == old(failures)[username := kept]
    {
      hide After;
      var cutoff := now - window;
      kept := Recent(Kept(username), cutoff);
      assert SameFrom(username, cutoff);
      ghost var times := Kept(username);
      failures := failures[username := kept];
      clock := now;
      forall u, c | c >= now - window
        ensures SameFrom(u, c)
      {
        assert old(SameFrom(u, c));
        if u == username {
          AfterTwice(times, cutoff, c);
        }
      }
    }

    static method Recent(times: seq<int>, cutoff: int) returns (kept: seq<int>)
      ensures kept == After(times, cutoff)
    {
      kept := [];
      for i := 0 to |times|
        invariant kept == After(times[..i], cutoff)
      {
        AfterAppend(times[..i], times[i], cutoff);
        assert times[..i + 1] == times[..i] + [times[i]];
        if times[i] > cutoff {
          kept := kept + [times[i]];
        }
      }
      assert times[..|times|] == times;
    }

    method Locked(username: string, now: int) returns (locked: bool)
      requires Valid() && clock <= now
      modifies this
      ensures Valid() && clock == now && history == old(history)
      ensures locked <==> |After(Past(username), now - window)| >= maxFailures
    {
      var recent := Prune(username, now);
      locked := |recent| >= maxFailures;
    }

    /** `pruned` and `now` are the two clock readings the call makes, in that order. `alarm`
        is raised by the failure that brings the list to the limit. */
    method RecordFailure(username: string, pruned: int, now: int) returns (alarm: bool)
      requires Valid() && clock <= pruned <= now
      modifies this
      ensures Valid() && clock == now
      ensures history == old(history)[username := old(Past(username)) + [now]]
      ensures alarm <==> |After(old(Past(username)), pruned - window)| + 1 == maxFailures
    {
      hide After;
      var recent := Prune(username, pruned);
      var times := recent + [now];
      failures := failures[username := times];
      history := history[username := Past(username) + [now]];
      clock := now;
      alarm := |times| == maxFailures;
      forall u, c | c >= now - window
        ensures SameFrom(u, c)
      {
        assert old(SameFrom(u, c));
        if u == username {
          AfterAppend(recent, now, c);
          AfterAppend(old(Past(u)), now, c);
          AfterTwice(old(Past(u)), pruned - window, c);
        }
      }
    }

    method Reset(username: string)
      requires Valid()
      modifies this
      ensures Valid() && clock == old(clock)
      ensures history == old(history) - {username}
    {
      failures := failures - {username};
      history := history - {username};
      forall u, c | c >= clock - window
        ensures SameFrom(u, c)
      {
        assert old(SameFrom(u, c));
      }
    }
  }
}
