/** The token bucket in a device's shared-memory entry, accessed as crates/utils/src/shared_memory/erl_adapter.rs does.

    Here one caller runs at a time; CasBucket has the interleavings. */
module TokenBuckets {
  import opened Wrappers
  import opened RealMath
  import opened ControllerSpec

  datatype TokenState = TokenState(tokens: real, lastUpdate: real)

  class TokenBucket {
    var active: bool
    var tokens: real
    var capacity: real
    var refillRate: real
    var lastUpdate: real

    constructor ()
      ensures Value() == Bucket(false, 100.0, 100.0, 10.0, 0.0)
    {
      active, tokens, capacity, refillRate, lastUpdate := false, 100.0, 100.0, 10.0, 0.0;
    }

    function Value(): Bucket
      reads this
    {
      Bucket(active, tokens, capacity, refillRate, lastUpdate)
    }

    method ReadTokenState() returns (r: Result<TokenState, RateLimitError>)
      ensures r == if active then Ok(TokenState(tokens, lastUpdate)) else Err(StorageFailure)
    {
      if !active {
        return Err(StorageFailure);
      }
      r := Ok(TokenState(tokens, lastUpdate));
    }

    method WriteTokenState(state: TokenState) returns (r: Result<(), RateLimitError>)
      modifies this`tokens, this`lastUpdate
      ensures r == if active then Ok(()) else Err(StorageFailure)
      ensures Value() == if active then old(Value()).(tokens := state.tokens, lastUpdate := state.lastUpdate)
                         else old(Value())
    {
      if !active {
        return Err(StorageFailure);
      }
      tokens, lastUpdate := state.tokens, state.lastUpdate;
      r := Ok(());
    }

    method WriteRefillRate(rate: real) returns (r: Result<(), RateLimitError>)
      modifies this`refillRate
      ensures r == if active then Ok(()) else Err(InvalidConfiguration)
      ensures Value() == if active then old(Value()).(refillRate := rate) else old(Value())
    {
      if !active {
        return Err(InvalidConfiguration);
      }
      refillRate := rate;
      r := Ok(());
    }

    method WriteCapacity(capacity: real) returns (r: Result<(), RateLimitError>)
      modifies this`capacity
      ensures r == if active then Ok(()) else Err(InvalidConfiguration)
      ensures Value() == if active then old(Value()).(capacity := capacity) else old(Value())
    {
      if !active {
        return Err(InvalidConfiguration);
      }
      this.capacity := capacity;
      r := Ok(());
    }

    /** An atomic compare-exchange on the level. */
    method CompareExchange(current: real, next: real) returns (swapped: bool)
      modifies this`tokens
      ensures swapped <==> old(tokens) == current
      ensures tokens == if swapped then next else old(tokens)
    {
      swapped := tokens == current;
      if swapped {
        tokens := next;
      }
    }

    /** Returns the level before; takes the cost only if the level covers it. */
    method FetchSubTokens(cost: real) returns (r: Result<real, RateLimitError>)
      modifies this`tokens
      ensures r == if active then Ok(old(tokens)) else Err(StorageFailure)
      ensures Value() == if active then Consumed(old(Value()), cost) else old(Value())
    {
      if !active {
        return Err(StorageFailure);
      }
      var current, swapped := tokens, false;
      while !swapped
        invariant !swapped ==> tokens == old(tokens)
        invariant swapped ==> current == old(tokens) && tokens == Lowered(old(tokens), cost)
        decreases !swapped
      {
        current := tokens;
        if current < cost {
          return Ok(current);
        }
        swapped := CompareExchange(current, Max(current - cost, 0.0));
      }
      r := Ok(current);
    }

    /** Returns the level before; adds the amount up to the capacity. */
    method FetchAddTokens(amount: real) returns (r: Result<real, RateLimitError>)
      modifies this`tokens
      ensures r == if active then Ok(old(tokens)) else Err(StorageFailure)
      ensures Value() == if active then Refilled(old(Value()), amount) else old(Value())
    {
      if !active {
        return Err(StorageFailure);
      }
      var limit, current, swapped := capacity, tokens, false;
      while !swapped
        invariant !swapped ==> tokens == old(tokens)
        invariant swapped ==> current == old(tokens) && tokens == Raised(old(tokens), amount, limit)
        decreases !swapped
      {
        current := tokens;
        swapped := CompareExchange(current, Max(Min(current + amount, limit), 0.0));
      }
      r := Ok(current);
    }
  }
}
