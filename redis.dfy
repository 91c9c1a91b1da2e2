/** The key-value store behind the embedding cache: the two commands the cache
    issues (GET and SETEX, as wrapped by src/services/redisService.ts), with
    expiry measured against the store's clock and a connection that may be
    down. */
module Redis {
  import opened Outcomes

  /** A stored string value, as far as the cache can tell: the JSON text of a
      numeric array, or text that does not parse as one. */
  datatype Payload = JsonArray(numbers: seq<real>) | Unparsable

  /** A value together with the clock reading at which it expires. */
  datatype Entry = Entry(payload: Payload, expiresAt: int)

  datatype StoreError =
    | Unreachable          // the connection is down
    | InvalidExpireTime    // SETEX with a non-positive number of seconds

  /** Everything a command result depends on. */
  datatype StoreState = StoreState(entries: map<string, Entry>, clock: int, reachable: bool)

  /** What GET sees under `key`: the payload while it has not expired. */
  function Live(entries: map<string, Entry>, clock: int, key: string): Option<Payload> {
    if key in entries && clock < entries[key].expiresAt then Some(entries[key].payload) else None
  }

  /** The entries after `SETEX key seconds value`, when it succeeds. */
  function Written(entries: map<string, Entry>, clock: int, key: string, seconds: int, value: Payload): map<string, Entry> {
    entries[key := Entry(value, clock + seconds)]
  }

  class Store {
    var entries: map<string, Entry>
    var clock: int
    var reachable: bool

    constructor (clock: int, reachable: bool)
      ensures entries == map[] && this.clock == clock && this.reachable == reachable
    {
      entries := map[];
      this.clock := clock;
      this.reachable := reachable;
    }

    function State(): StoreState
      reads this
    {
      StoreState(entries, clock, reachable)
    }

    /** GET: the live payload under `key`, or an error when the store cannot
        be reached. */
    method Get(key: string) returns (r: Result<Option<Payload>, StoreError>)
      ensures r == if reachable then Success(Live(entries, clock, key)) else Failure(Unreachable)
    {
      if reachable {
        r := Success(Live(entries, clock, key));
      } else {
        r := Failure(Unreachable);
      }
    }

    /** SETEX: overwrite `key` with a value that expires `seconds` from now.
        It fails, changing nothing, when the store cannot be reached or
        `seconds` is not positive. */
    method SetEx(key: string, seconds: int, value: Payload) returns (r: Outcome<StoreError>)
      modifies this
      ensures clock == old(clock) && reachable == old(reachable)
      ensures !reachable ==> r == Fail(Unreachable) && entries == old(entries)
      ensures reachable && seconds <= 0 ==> r == Fail(InvalidExpireTime) && entries == old(entries)
      ensures reachable && seconds > 0 ==> r == Pass && entries == Written(old(entries), clock, key, seconds, value)
    {
      if !reachable {
        r := Fail(Unreachable);
      } else if seconds <= 0 {
        r := Fail(InvalidExpireTime);
      } else {
        entries := Written(entries, clock, key, seconds, value);
        r := Pass;
      }
    }
  }
}
