/** The lockout shared through Redis: a sorted set of failures per username, scored by time. */
module RedisLockout {
  import opened SlidingWindow

  const MINUTE: int := 60_000_000_000

  /** One recorded failure: its time, which is also its score, and a random tag. */
  datatype Member = Member(at: int, tag: int)

  function Times(h: seq<Member>): (times: seq<int>)
    ensures |times| == |h|
  {
    if h == [] then [] else Times(h[..|h| - 1]) + [h[|h| - 1].at]
  }

  ghost function InWindow(h: seq<Member>, cutoff: int): set<Member> {
    set m | m in h && m.at >= cutoff
  }

  ghost predicate Distinct(h: seq<Member>) {
    forall i, j :: 0 <= i < j < |h| ==> h[i] != h[j]
  }

  /** As long as no two failures drew the same tag at the same instant, the set counts them all. */
  lemma {:induction false} SetCountsHistory(h: seq<Member>, cutoff: int)
    requires Distinct(h)
    ensures |InWindow(h, cutoff)| == CountFrom(Times(h), cutoff)
    decreases |h|
  {
    if h != [] {
      var n := |h| - 1;
      SetCountsHistory(h[..n], cutoff);
      assert Times(h)[..n] == Times(h[..n]);
      assert h == h[..n] + [h[n]];
      assert h[n] !in h[..n];
      if h[n].at >= cutoff {
        assert InWindow(h, cutoff) == InWindow(h[..n], cutoff) + {h[n]};
      } else {
        assert InWindow(h, cutoff) == InWindow(h[..n], cutoff);
      }
    }
  }

  /** On the same failures the shared lockout locks out exactly when the in-memory one does,
      unless the failures lying on the cutoff are the ones that reach the limit. */
  lemma AgreesWithInMemoryIff(h: seq<Member>, cutoff: int, limit: int)
    requires Distinct(h)
    ensures (|InWindow(h, cutoff)| >= limit <==> |After(Times(h), cutoff)| >= limit)
       <==> !(|After(Times(h), cutoff)| < limit <= |After(Times(h), cutoff)| + CountAt(Times(h), cutoff))
  {
    SetCountsHistory(h, cutoff);
    VerdictsAgreeIff(Times(h), cutoff, limit);
  }

  /** So they agree whatever the limit exactly when no failure lies on the cutoff. */
  lemma AgreesForEveryLimitIff(h: seq<Member>, cutoff: int)
    requires Distinct(h)
    ensures (forall limit :: SameVerdict(|After(Times(h), cutoff)|, |InWindow(h, cutoff)|, limit))
       <==> CountAt(Times(h), cutoff) == 0
  {
    SetCountsHistory(h, cutoff);
    EveryVerdictAgreesIff(Times(h), cutoff);
  }

  /** `history` is every failure recorded since the username's last reset. */
  class RedisLockout {
    const maxFailures: int
    const window: nat
    var sets: map<string, set<Member>>
    ghost var history: map<string, seq<Member>>
    ghost var clock: int

    ghost function Past(username: string): seq<Member>
      reads this
    {
      if username in history then history[username] else []
    }

    function Members(username: string): set<Member>
      reads this
    {
      if username in sets then sets[username] else {}
    }

    ghost predicate SameFrom(username: string, cutoff: int)
      reads this
    {
      (set m | m in Members(username) && m.at >= cutoff) == InWindow(Past(username), cutoff)
    }

    ghost predicate Valid()
      reads this
    {
      forall u, cutoff :: cutoff >= clock - window ==> SameFrom(u, cutoff)
    }

    /** The key outlives its newest failure by the window and a minute. */
    ghost predicate MayExpire(username: string, now: int)
      reads this
    {
      forall m :: m in Past(username) ==> now - m.at >= window + MINUTE
    }

    constructor (maxFailures: int, window: nat, ghost start: int)
      ensures Valid() && history == map[] && clock == start
      ensures this.maxFailures == maxFailures && this.window == window
    {
      this.maxFailures, this.window := maxFailures, window;
      sets := map[];
      history, clock := map[], start;
    }

    /** Redis drops the key once its time to live is over. */
    method Expire(username: string, now: int)
      requires Valid() && clock <= now && MayExpire(username, now)
      modifies this
      ensures Valid() && clock == now && history == old(history)
      ensures sets == old(sets) - {username}
    {
      sets := sets - {username};
      clock := now;
      forall u, c | c >= now - window
        ensures SameFrom(u, c)
      {
        assert old(SameFrom(u, c));
        if u == username {
          forall m | m in Past(u)
            ensures m.at < c
          {
          }
          assert InWindow(Past(u), c) == {};
        } else {
          assert Members(u) == old(Members(u));
        }
      }
    }

    /** The first command of a check: drop what scores below the cutoff. It may reach the server
        late, and its reply may be lost. */
    method Drop(username: string, read: int, now: int)
      requires Valid() && clock <= now && read <= now
      modifies this
      ensures Valid() && clock == now && history == old(history)
      ensures forall u :: u != username ==> Members(u) == old(Members(u))
      ensures forall m :: m in Members(username) <==> m in old(Members(username)) && m.at >= read - window
    {
      clock := now;
      var cutoff := read - window;
      var kept := set m | m in Members(username) && m.at >= cutoff;
      sets := sets[username := kept];
      forall u, c | c >= now - window
        ensures SameFrom(u, c)
      {
        assert old(SameFrom(u, c));
        if u == username {
          assert (set m | m in kept && m.at >= c) == (set m | m in old(Members(u)) && m.at >= c);
        } else {
          assert Members(u) == old(Members(u));
        }
      }
    }

    /** The second command: count. Whatever other clients did since the first one, failures
        enough inside the window always lock. */
    method Count(username: string) returns (locked: bool)
      requires Valid()
      ensures locked <==> |Members(username)| >= maxFailures
      ensures |InWindow(Past(username), clock - window)| >= maxFailures ==> locked
    {
      locked := |Members(username)| >= maxFailures;
      assert SameFrom(username, clock - window);
      SubsetSize(InWindow(Past(username), clock - window), Members(username));
    }

    /** Both commands with nothing in between. A command that fails, whether it never ran or only
        its reply was lost, leaves the username not locked. */
    method Locked(username: string, now: int, dropRuns: bool, dropAnswered: bool, countAnswered: bool)
      returns (locked: bool)
      requires Valid() && clock <= now
      modifies this
      ensures Valid() && clock == now && history == old(history)
      ensures !(dropRuns && dropAnswered && countAnswered) ==> !locked
      ensures dropRuns && dropAnswered && countAnswered ==>
                (locked <==> |InWindow(Past(username), now - window)| >= maxFailures)
    {
      if dropRuns {
        Drop(username, now, now);
      } else {
        clock := now;
        assert forall u, c :: c >= now - window ==> (old(SameFrom(u, c)) ==> SameFrom(u, c));
      }
      if !dropRuns || !dropAnswered || !countAnswered {
        return false;
      }
      locked := Count(username);
      assert SameFrom(username, now - window);
      assert Members(username) == InWindow(Past(username), now - window);
    }

    /** Adding and extending the time to live go out together; whether a reply comes back changes
        nothing. */
    method RecordFailure(username: string, now: int, tag: int, runs: bool)
      requires Valid() && clock <= now
      modifies this
      ensures Valid() && clock == now
      ensures history == if runs then old(history)[username := old(Past(username)) + [Member(now, tag)]]
                         else old(history)
    {
      clock := now;
      if runs {
        sets := sets[username := Members(username) + {Member(now, tag)}];
        history := history[username := Past(username) + [Member(now, tag)]];
      }
      forall u, c | c >= now - window
        ensures SameFrom(u, c)
      {
        assert old(SameFrom(u, c));
        if u == username && runs {
          var m := Member(now, tag);
          var extra := if m.at >= c then {m} else {};
          assert (set x | x in Members(u) && x.at >= c) == (set x | x in old(Members(u)) && x.at >= c) + extra;
          assert InWindow(Past(u), c) == InWindow(old(Past(u)), c) + extra;
        }
      }
    }

    method Reset(username: string, runs: bool)
      requires Valid()
      modifies this
      ensures Valid() && clock == old(clock)
      ensures history == if runs then old(history) - {username} else old(history)
    {
      if runs {
        sets := sets - {username};
        history := history - {username};
      }
      forall u, c | c >= clock - window
        ensures SameFrom(u, c)
      {
        assert old(SameFrom(u, c));
        assert u != username ==> Members(u) == old(Members(u));
      }
    }
  }

  lemma SubsetSize<T>(a: set<T>, b: set<T>)
    requires a <= b
    ensures |a| <= |b|
  {
    assert b == a + (b - a);
  }
}
