/**
 `SnmpSessionCache` of app/snmp/session_cache.py with its shared dictionaries, updated in place.

 `get_target` is cut at its awaits: `GetTarget` runs to the lock or to the first probe, `Resume`
 runs when the lock is handed over, `ReplyArrived` when a probe has been answered or has failed,
 `Abandon` when the coroutine dies at an await.  Each is proved to be one step of the protocol.

 The object remembers the steps taken; its state is always the one they lead to, so every result
 about runs of the protocol is a result about this object.
 */
module SessionCache {
  import opened ProbeProtocol

  class SnmpSessionCache {
    const cfg: Config
    var now: int
    var communityCache: map<Ip, Community>
    var negativeCache: map<Ip, int>
    var probeLocks: map<Ip, Cid>       // locked locks only, with the coroutine inside
    var calls: map<Cid, Call>          // where each coroutine is
    ghost var log: seq<Event>
    ghost var history: seq<Action>

    ghost function Abs(): State
      reads this
    {
      State(now, communityCache, negativeCache, probeLocks, calls, log)
    }

    ghost predicate Valid()
      reads this
    {
      Executable(cfg, INIT, history) && Abs() == After(cfg, INIT, history)
    }

    constructor (cfg: Config)
      ensures this.cfg == cfg && history == [] && Valid()
    {
      this.cfg := cfg;
      now, communityCache, negativeCache, probeLocks, calls, log := 0, map[], map[], map[], map[], [];
      history := [];
    }

    /** What every user of the cache may rely on. */
    lemma ProtocolHolds()
      requires Valid()
      ensures Inv(cfg, Abs())
    {
      RunKeepsInv(cfg, INIT, history);
    }

    /** Records a step that has already been made. */
    ghost method Commit(a: Action)
      requires Executable(cfg, INIT, history) && Enabled(After(cfg, INIT, history), a)
      requires Abs() == Apply(cfg, After(cfg, INIT, history), a)
      modifies this`history
      ensures Valid() && history == old(history) + [a]
    {
      AfterNext(cfg, INIT, history, a);
      history := history + [a];
    }

    method IsNegativeCached(ip: Ip) returns (b: bool)
      ensures b == Cooling(Abs(), ip)
    {
      if ip in negativeCache {
        return now < negativeCache[ip];
      }
      return false;
    }

    method IsCommunityKnown(ip: Ip) returns (b: bool)
      ensures b == (ip in Abs().community)
    {
      return ip in communityCache;
    }

    method GetTarget(c: Cid, ip: Ip)
      requires Valid() && Enabled(Abs(), Enter(c, ip))
      modifies this
      ensures Valid() && history == old(history) + [Enter(c, ip)]
      ensures Abs() == Apply(cfg, old(Abs()), Enter(c, ip))
    {
      if ip in communityCache {
        calls := calls[c := Call(ip, Done(Target(communityCache[ip])))];
        Commit(Enter(c, ip));
        return;
      }
      if ip in negativeCache {
        if now < negativeCache[ip] {
          calls := calls[c := Call(ip, Done(Unreachable))];
          Commit(Enter(c, ip));
          return;
        }
        negativeCache := negativeCache - {ip};
      }
      if ip in probeLocks || exists d :: d in calls && calls[d] == Call(ip, Waiting) {
        calls := calls[c := Call(ip, Waiting)];
      } else {
        InsideLock(c, ip);
      }
      Commit(Enter(c, ip));
    }

    method Resume(c: Cid)
      requires Valid() && Enabled(Abs(), Wake(c))
      modifies this
      ensures Valid() && history == old(history) + [Wake(c)]
      ensures Abs() == Apply(cfg, old(Abs()), Wake(c))
    {
      InsideLock(c, calls[c].ip);
      Commit(Wake(c));
    }

    method ReplyArrived(c: Cid, nonEmpty: bool)
      requires Valid() && Enabled(Abs(), Reply(c, nonEmpty))
      modifies this
      ensures Valid() && history == old(history) + [Reply(c, nonEmpty)]
      ensures Abs() == Apply(cfg, old(Abs()), Reply(c, nonEmpty))
    {
      ProbingWithin(cfg, history, c);
      var ip, k := calls[c].ip, calls[c].pc.k;
      if nonEmpty {
        communityCache := communityCache[ip := cfg.communities[k]];
        probeLocks := probeLocks - {ip};
        calls := calls[c := Call(ip, Done(Target(cfg.communities[k])))];
        log := log + [Answered(ip, cfg.communities[k], now)];
      } else {
        ProbeFrom(c, ip, k + 1);
      }
      Commit(Reply(c, nonEmpty));
    }

    method Abandon(c: Cid)
      requires Valid() && Enabled(Abs(), Abort(c))
      modifies this
      ensures Valid() && history == old(history) + [Abort(c)]
      ensures Abs() == Apply(cfg, old(Abs()), Abort(c))
    {
      var ip := calls[c].ip;
      if calls[c].pc.Probing? {
        probeLocks := probeLocks - {ip};
      }
      calls := calls[c := Call(ip, Done(Aborted))];
      Commit(Abort(c));
    }

    method Pass(elapsed: nat)
      requires Valid()
      modifies this
      ensures Valid() && history == old(history) + [Tick(elapsed)]
      ensures Abs() == Apply(cfg, old(Abs()), Tick(elapsed))
    {
      now := now + elapsed;
      Commit(Tick(elapsed));
    }

    /** The critical section: check both caches again, then start the campaign. */
    method InsideLock(c: Cid, ip: Ip)
      modifies this
      ensures Abs() == Locked(cfg, old(Abs()), c, ip) && history == old(history)
    {
      if ip in communityCache {
        calls := calls[c := Call(ip, Done(Target(communityCache[ip])))];
      } else if ip in negativeCache && now < negativeCache[ip] {
        calls := calls[c := Call(ip, Done(Unreachable))];
      } else {
        ProbeFrom(c, ip, 0);
      }
    }

    /** The campaign loop from the k-th community on, up to its next await. */
    method ProbeFrom(c: Cid, ip: Ip, k: nat)
      modifies this
      ensures Abs() == SendProbe(cfg, old(Abs()), c, ip, k) && history == old(history)
    {
      if k < |cfg.communities| {
        probeLocks := probeLocks[ip := c];
        calls := calls[c := Call(ip, Probing(k))];
        log := log + [ProbeSent(ip, cfg.communities[k], now)];
      } else {
        negativeCache := negativeCache[ip := now + cfg.ttl];
        probeLocks := probeLocks - {ip};
        calls := calls[c := Call(ip, Done(Unreachable))];
        log := log + [CampaignFailed(ip, now)];
      }
    }
  }
}
