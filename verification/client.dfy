/** The client object, which owns the mutable nonce counter; each call
    delegates to the pure preparation functions. */
module Client {
  import opened Wrappers
  import opened Json
  import opened Signer
  import opened Errors
  import opened Requests

  /** A client: its configuration and the nonce counter it owns. The
      counter's seed is the constructor's `seed`, the wall-clock time in the
      source. */
  class IndependentReserve {
    const config: Config
    const hmacHex: HmacHex
    var nonce: nat

    constructor (key: Option<string>, secret: Option<string>, server: Option<string>, seed: nat, hmacHex: HmacHex)
      ensures config == NewConfig(key, secret, server)
      ensures this.hmacHex == hmacHex && nonce == seed
    {
      config := NewConfig(key, secret, server);
      this.hmacHex := hmacHex;
      nonce := seed;
    }

    /** Prepares a private request, advancing the counter by exactly one on
        success and leaving it alone on failure. */
    method PostReq(action: string, params: map<string, Value>) returns (r: Result<PrivateRequest, ApiError>)
      modifies this
      ensures Prepared(r, nonce) == Requests.PostReq(config, hmacHex, old(nonce), action, params)
      ensures r.Success? ==> r.value.nonce == old(nonce) && nonce == old(nonce) + 1
      ensures r.Failure? ==> nonce == old(nonce)
    {
      var p := Requests.PostReq(config, hmacHex, nonce, action, params);
      r := p.result;
      nonce := p.next;
    }

    method GetOpenOrders(primary: Value, secondary: Value, pageIndex: real, pageSize: real)
      returns (r: Result<PrivateRequest, ApiError>)
      modifies this
      ensures Prepared(r, nonce) == Requests.GetOpenOrders(config, hmacHex, old(nonce), primary, secondary, pageIndex, pageSize)
    {
      var p := Requests.GetOpenOrders(config, hmacHex, nonce, primary, secondary, pageIndex, pageSize);
      r := p.result;
      nonce := p.next;
    }

    method GetClosedOrders(primary: Value, secondary: Value, pageIndex: real, pageSize: real)
      returns (r: Result<PrivateRequest, ApiError>)
      modifies this
      ensures Prepared(r, nonce) == Requests.GetClosedOrders(config, hmacHex, old(nonce), primary, secondary, pageIndex, pageSize)
    {
      var p := Requests.GetClosedOrders(config, hmacHex, nonce, primary, secondary, pageIndex, pageSize);
      r := p.result;
      nonce := p.next;
    }

    method GetTransactions(account: Value, from: Value, to: Value, pageIndex: real, pageSize: real)
      returns (r: Result<PrivateRequest, ApiError>)
      modifies this
      ensures Prepared(r, nonce) == Requests.GetTransactions(config, hmacHex, old(nonce), account, from, to, pageIndex, pageSize)
    {
      var p := Requests.GetTransactions(config, hmacHex, nonce, account, from, to, pageIndex, pageSize);
      r := p.result;
      nonce := p.next;
    }
  }
}
