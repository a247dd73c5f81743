/** One node's `redis` object and the server it draws numbers from. */
module RedisClients {
  import opened Messages
  import opened Numbering

  /** The Redis server's `chat:seq:` keys. */
  class RedisServer {
    var counters: map<string, nat>

    constructor (counters: map<string, nat>)
      ensures this.counters == counters
    {
      this.counters := counters;
    }
  }

  class Redis {
    /** `command_context != nullptr`. */
    var connected: bool
    var available: bool
    var localSeq: map<string, nat>

    ghost function View(): Client
      reads this
    {
      Client(connected, available, localSeq)
    }

    constructor ()
      ensures View() == Client(false, false, map[])
    {
      connected, available, localSeq := false, false, map[];
    }

    /** `connect`: the three contexts are opened in turn; only after the last one does the object count
        as available, and a failure before it leaves the object as it was. */
    method Connect(publishOpens: bool, subscribeOpens: bool, commandOpens: bool) returns (ok: bool)
      modifies this
      ensures ok == (publishOpens && subscribeOpens && commandOpens)
      ensures ok ==> View() == Client(true, true, old(localSeq))
      ensures !ok ==> available == old(available) && localSeq == old(localSeq) &&
                      connected == (old(connected) && (!publishOpens || !subscribeOpens))
    {
      if !publishOpens {
        return false;
      }
      if !subscribeOpens {
        return false;
      }
      connected := commandOpens;
      if !connected {
        return false;
      }
      available := true;
      return true;
    }

    /** `localFallbackSeq`. */
    method LocalFallbackSeq(c: string) returns (number: Word, source: Source)
      modifies this
      ensures var d := Fallback(old(View()), map[], c);
              View() == d.client && number == d.number && source == d.source
    {
      var v := if c in localSeq then localSeq[c] else 0;
      v := v + 1;
      localSeq := localSeq[c := v];
      number, source := (FALLBACK_BASE + v) % WORD, FromFallback(v);
    }

    /** `incrSeq`; `reply` is what comes back from `INCR`. The source of the number is kept for the record. */
    method IncrSeq(server: RedisServer, c: string, reply: Reply) returns (number: Word, source: Source)
      modifies this, server
      ensures var d := Draw(old(View()), old(server.counters), c, reply);
              View() == d.client && server.counters == d.counters && number == d.number && source == d.source
    {
      if !connected || !available {
        number, source := LocalFallbackSeq(c);
        return;
      }
      var value := if c in server.counters then server.counters[c] else 0;
      if reply == NoReply(false) || reply == NoReply(true) {
        if reply.executed && value < REDIS_MAX {
          server.counters := server.counters[c := value + 1];
        }
        available := false;
        number, source := LocalFallbackSeq(c);
        return;
      }
      number, source := 0, FromRedis;
      if reply.Answered? && value < REDIS_MAX {
        server.counters := server.counters[c := value + 1];
        number := value + 1;
      }
      if number == 0 {
        number, source := LocalFallbackSeq(c);
      }
    }
  }
}
