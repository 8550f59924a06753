/** The limiter's three regions and its cleanup over bucket objects of all addresses. */
module RateMiddleware {
  import opened RateLimit

  class Cell {
    var tokens: real
    var lastFill: real

    function View(): Bucket
      reads this
    {
      Bucket(tokens, lastFill)
    }

    constructor (tokens: real, lastFill: real)
      ensures View() == Bucket(tokens, lastFill)
    {
      this.tokens, this.lastFill := tokens, lastFill;
    }
  }

  class Middleware {
    const rps: nat
    var buckets: map<string, Cell>

    constructor (rps: nat)
      ensures this.rps == rps && buckets == map[]
    {
      this.rps, buckets := rps, map[];
    }

    method Lookup(ip: string, now: real) returns (b: Cell)
      modifies this
      ensures buckets == old(buckets)[ip := b]
      ensures if ip in old(buckets) then b == old(buckets)[ip] else fresh(b) && b.View() == Bucket(rps as real, now)
    {
      if ip in buckets {
        b := buckets[ip];
      } else {
        b := new Cell(rps as real, now);
        buckets := buckets[ip := b];
      }
    }

    method Refill(b: Cell, now: real)
      modifies b
      ensures b.View() == Filled(old(b.View()), now, rps)
      ensures var flowed := old(b.tokens) + (now - old(b.lastFill)) * rps as real;
              b.lastFill == now && b.tokens == if flowed > rps as real then rps as real else flowed
    {
      var elapsed := now - b.lastFill;
      InflowIsProduct(elapsed, rps);
      b.tokens := b.tokens + elapsed * rps as real;
      if b.tokens > rps as real { b.tokens := rps as real; }
      b.lastFill := now;
    }

    method Take(b: Cell) returns (ok: bool)
      modifies b
      ensures ok == (old(b.tokens) >= 1.0)
      ensures b.View() == if ok then old(b.View()).(tokens := old(b.tokens) - 1.0) else old(b.View())
    {
      if b.tokens < 1.0 { return false; }
      b.tokens := b.tokens - 1.0;
      return true;
    }

    /** One undisturbed request: it is admitted iff its refilled bucket, new and full if there was none, holds a
        token; no other address is touched. */
    method Handle(ip: string, looked: real, now: real) returns (ok: bool)
      requires looked <= now
      modifies this, if ip in buckets then {buckets[ip]} else {}
      ensures ip in buckets && buckets == old(buckets)[ip := buckets[ip]]
      ensures ip in old(buckets) ==> buckets[ip] == old(buckets)[ip]
      ensures var was := if ip in old(buckets) then old(buckets[ip].View()) else Bucket(rps as real, now);
              ok == (Filled(was, now, rps).tokens >= 1.0) &&
              buckets[ip].View() == Bucket(Filled(was, now, rps).tokens - (if ok then 1.0 else 0.0), now)
    {
      var b := Lookup(ip, looked);
      if ip !in old(buckets) {
        NonNegative(now - looked, rps);
        NoTime(rps);
      }
      Refill(b, now);
      ok := Take(b);
    }

    /** Exactly the buckets idle for over five minutes go. */
    method Cleanup(now: real)
      modifies this
      ensures forall ip :: ip in buckets <==> ip in old(buckets) && now - old(buckets)[ip].lastFill <= 300.0
      ensures forall ip | ip in buckets :: buckets[ip] == old(buckets)[ip]
    {
      var todo := buckets.Keys;
      while todo != {}
        invariant todo <= old(buckets).Keys
        invariant forall ip :: ip in buckets <==>
          ip in old(buckets) && (ip in todo || now - old(buckets)[ip].lastFill <= IDLE_LIMIT)
        invariant forall ip | ip in buckets :: buckets[ip] == old(buckets)[ip]
        decreases |todo|
      {
        var ip :| ip in todo;
        todo := todo - {ip};
        if now - buckets[ip].lastFill > IDLE_LIMIT { buckets := buckets - {ip}; }
      }
    }
  }
}
