/** The request-building half of the client, as pure functions of the
    client's configuration and nonce counter: `postReq` without its
    transport, the public request URL, and the pagination guard shared by
    the paged private calls. */
module Requests {
  import opened Wrappers
  import opened Json
  import opened Signer
  import opened Errors
  import opened Format

  const DefaultServer: string := "https://api.independentreserve.com"
  const PrivatePath: string := "/Private/"
  const PublicPath: string := "/Public/"

  /** What a client is constructed with; fixed for its lifetime. */
  datatype Config = Config(key: Option<string>, secret: Option<string>, url: string)

  /** The constructor's configuration: a falsy server (absent or empty)
      selects the public exchange address. */
  function NewConfig(key: Option<string>, secret: Option<string>, server: Option<string>): (c: Config)
    ensures c.key == key && c.secret == secret
    ensures TruthyText(server) ==> c.url == server.value
    ensures !TruthyText(server) ==> c.url == DefaultServer
  {
    Config(key, secret, if TruthyText(server) then server.value else DefaultServer)
  }

  /** Whatever the constructor is given, the client has a non-empty base
      URL, so every request URL names a server. */
  lemma BaseUrlNeverEmpty(key: Option<string>, secret: Option<string>, server: Option<string>)
    ensures |NewConfig(key, secret, server).url| > 0
  {
  }

  /** Private calls need both a truthy key and a truthy secret. */
  predicate HasCredentials(c: Config) {
    TruthyText(c.key) && TruthyText(c.secret)
  }

  /** The address of a private action. */
  function PrivateUrl(base: string, action: string): (u: string)
    ensures |u| == |base| + |PrivatePath| + |action|
    ensures u[..|base|] == base && u[|base| + |PrivatePath|..] == action
    ensures u[|base|..|base| + |PrivatePath|] == PrivatePath
  {
    base + PrivatePath + action
  }

  /** The address of a public action. */
  function PublicUrl(base: string, action: string): (u: string)
    ensures |u| == |base| + |PublicPath| + |action|
    ensures u[..|base|] == base && u[|base| + |PublicPath|..] == action
    ensures u[|base|..|base| + |PublicPath|] == PublicPath
  {
    base + PublicPath + action
  }

  /** On one server, no private address is ever a public one. */
  lemma PrivateNeverPublic(base: string, a: string, b: string)
    ensures PrivateUrl(base, a) != PublicUrl(base, b)
  {
    assert PrivateUrl(base, a)[|base| + 2] == 'r';
    assert PublicUrl(base, b)[|base| + 2] == 'u';
  }

  /** The authentication fields of a private request body. */
  function AuthFields(key: string, signature: string, nonce: nat): map<string, Value> {
    map["apiKey" := Str(key), "signature" := Str(signature), "nonce" := Num(nonce as real)]
  }

  /** `_.extend(auth, params)`: every caller parameter is kept, and it
      replaces an authentication field of the same name. */
  function SignedBody(key: string, signature: string, nonce: nat, params: map<string, Value>): (body: map<string, Value>)
    ensures body.Keys == params.Keys + {"apiKey", "signature", "nonce"}
    ensures forall k :: k in params ==> body[k] == params[k]
    ensures "apiKey" !in params ==> body["apiKey"] == Str(key)
    ensures "signature" !in params ==> body["signature"] == Str(signature)
    ensures "nonce" !in params ==> body["nonce"] == Num(nonce as real)
  {
    AuthFields(key, signature, nonce) + params
  }

  /** Every entry of `params` is in `body`, with the same value. */
  predicate Carries(body: map<string, Value>, params: map<string, Value>) {
    forall k :: k in params ==> k in body && body[k] == params[k]
  }

  /** A prepared private POST, before it is handed to the transport.
      `nonce` and `signature` are the values used in signing. */
  datatype PrivateRequest = PrivateRequest(url: string, nonce: nat, signature: string, body: map<string, Value>)

  /** The outcome of preparing a call, and the nonce counter after it. */
  datatype Prepared = Prepared(result: Result<PrivateRequest, ApiError>, next: nat)

  /** `postReq` up to the transport: fail on missing credentials without
      touching the counter, otherwise use the current counter as the nonce,
      advance it by one, sign `nonce + key` and build the body and URL. */
  function PostReq(c: Config, hmacHex: HmacHex, counter: nat, action: string, params: map<string, Value>): (p: Prepared)
    ensures !HasCredentials(c) ==> p == Prepared(Failure(MissingCredentials), counter)
    ensures HasCredentials(c) ==> p.result.Success? && p.next == counter + 1
    ensures p.result.Success? ==>
      var req := p.result.value;
      && req.nonce == counter
      && req.url == PrivateUrl(c.url, action)
      && req.signature == Signature(hmacHex, c.secret.value, req.nonce, c.key.value)
      && req.body.Keys == params.Keys + {"apiKey", "signature", "nonce"}
      && Carries(req.body, params)
      && ("apiKey" !in params ==> req.body["apiKey"] == Str(c.key.value))
      && ("signature" !in params ==> req.body["signature"] == Str(req.signature))
      && ("nonce" !in params ==> req.body["nonce"] == Num(req.nonce as real))
  {
    if !HasCredentials(c) then Prepared(Failure(MissingCredentials), counter)
    else
      var nonce := counter;
      var signature := Signature(hmacHex, c.secret.value, nonce, c.key.value);
      var body := SignedBody(c.key.value, signature, nonce, params);
      Prepared(Success(PrivateRequest(PrivateUrl(c.url, action), nonce, signature, body)), counter + 1)
  }

  /** The guard of `getOpenOrders`, `getClosedOrders` and `getTransactions`:
      `pageIndex` is checked first, then `pageSize`; both bounds are
      inclusive. */
  function CheckPaging(pageIndex: real, pageSize: real): (e: Option<ApiError>)
    ensures e.None? <==> 1.0 <= pageIndex && 1.0 <= pageSize <= 50.0
    ensures pageIndex < 1.0 ==> e == Some(InvalidPageIndex(pageIndex))
    ensures 1.0 <= pageIndex && e.Some? ==> e == Some(InvalidPageSize(pageSize))
  {
    if !(pageIndex >= 1.0) then Some(InvalidPageIndex(pageIndex))
    else if !(pageSize >= 1.0 && pageSize <= 50.0) then Some(InvalidPageSize(pageSize))
    else None
  }

  /** The formats of the guard's two errors; each call supplies only the
      function name as an argument. */
  const PageIndexFormat: string := "%s" + " pageIndex " + "%s" + " is not >= 1"
  const PageSizeFormat: string := "%s" + " pageSize " + "%s" + " is not >= 1 and <= 50"

  lemma GuardFormatsNeedTwoArguments()
    ensures Conversions(PageIndexFormat) == 2 && Conversions(PageSizeFormat) == 2
  {
    TwoConversions(" pageIndex ", " is not >= 1");
    TwoConversions(" pageSize ", " is not >= 1 and <= 50");
  }

  /** A format of the guard's shape, `%s<a>%s<b>` with no `%` in `a` or
      `b`, has exactly two conversions. */
  lemma TwoConversions(a: string, b: string)
    requires forall i :: 0 <= i < |a| ==> a[i] != '%'
    requires forall i :: 0 <= i < |b| ==> b[i] != '%'
    ensures Conversions("%s" + a + "%s" + b) == 2
  {
    ConversionsSkip(b, "");
    assert b + "" == b;
    ConversionsAfterPercentS(b);
    ConversionsSkip(a, "%s" + b);
    assert "%s" + a + "%s" + b == "%s" + (a + ("%s" + b));
    ConversionsAfterPercentS(a + ("%s" + b));
  }

  lemma ConversionsAfterPercentS(rest: string)
    ensures Conversions("%s" + rest) == 1 + Conversions(rest)
  {
  }

  /** Text without a `%` adds no conversion in front of `rest`. */
  lemma {:induction false} ConversionsSkip(text: string, rest: string)
    requires forall i :: 0 <= i < |text| ==> text[i] != '%'
    requires |rest| == 0 || rest[0] == '%'
    ensures Conversions(text + rest) == Conversions(rest)
    decreases |text|
  {
    if |text| > 0 {
      var s := text + rest;
      assert s[1..] == text[1..] + rest;
      ConversionsSkip(text[1..], rest);
      assert s[0] == text[0];
    } else {
      assert text + rest == rest;
    }
  }

  /** What the guard does as written: pass, report an error to the
      callback, or throw while building the error. */
  datatype Guard = Pass | Reported(error: ApiError) | Thrown

  /** The guard as written: each rejection builds its `VError` from a format
      with two `%s` and a single argument. */
  function CheckPagingAsWritten(pageIndex: real, pageSize: real): (g: Guard)
    ensures g.Pass? <==> 1.0 <= pageIndex && 1.0 <= pageSize <= 50.0
  {
    if !(pageIndex >= 1.0) then
      (if FormatThrows(PageIndexFormat, 1) then Thrown else Reported(InvalidPageIndex(pageIndex)))
    else if !(pageSize >= 1.0 && pageSize <= 50.0) then
      (if FormatThrows(PageSizeFormat, 1) then Thrown else Reported(InvalidPageSize(pageSize)))
    else Pass
  }

  /** As written, every rejected page throws instead of reaching the
      callback; with the value passed as a second argument the error would
      be built, and the corrected guard `CheckPaging` reports it. */
  lemma RejectedPageThrows(pageIndex: real, pageSize: real)
    ensures CheckPaging(pageIndex, pageSize).Some? <==> CheckPagingAsWritten(pageIndex, pageSize) == Thrown
    ensures !FormatThrows(PageIndexFormat, 2) && !FormatThrows(PageSizeFormat, 2)
  {
    GuardFormatsNeedTwoArguments();
  }

  /** A paged private call: the guard runs before `postReq`, so a rejected
      call consumes no nonce, whatever the credentials. */
  function PagedPostReq(c: Config, hmacHex: HmacHex, counter: nat, action: string,
                        pageIndex: real, pageSize: real, params: map<string, Value>): (p: Prepared)
    ensures CheckPaging(pageIndex, pageSize).Some? ==>
      p == Prepared(Failure(CheckPaging(pageIndex, pageSize).value), counter)
    ensures CheckPaging(pageIndex, pageSize).None? ==> p == PostReq(c, hmacHex, counter, action, params)
  {
    match CheckPaging(pageIndex, pageSize)
    case Some(e) => Prepared(Failure(e), counter)
    case None => PostReq(c, hmacHex, counter, action, params)
  }

  function PairPageParams(primary: Value, secondary: Value, pageIndex: real, pageSize: real): map<string, Value> {
    map["primaryCurrencyCode" := primary, "secondaryCurrencyCode" := secondary,
        "pageIndex" := Num(pageIndex), "pageSize" := Num(pageSize)]
  }

  /** `getOpenOrders`: a guarded `GetOpenOrders` request whose body carries
      the currency pair and the page. */
  function GetOpenOrders(c: Config, hmacHex: HmacHex, counter: nat, primary: Value, secondary: Value,
                         pageIndex: real, pageSize: real): (p: Prepared)
    ensures p.result.Success? <==> HasCredentials(c) && 1.0 <= pageIndex && 1.0 <= pageSize <= 50.0
    ensures p.result.Failure? ==> p.next == counter
    ensures p.result.Success? ==>
      && p.next == counter + 1
      && p.result.value.url == PrivateUrl(c.url, "GetOpenOrders")
      && Carries(p.result.value.body, PairPageParams(primary, secondary, pageIndex, pageSize))
  {
    PagedPostReq(c, hmacHex, counter, "GetOpenOrders", pageIndex, pageSize,
                 PairPageParams(primary, secondary, pageIndex, pageSize))
  }

  /** `getClosedOrders`: as `getOpenOrders`, for the `GetClosedOrders`
      action. */
  function GetClosedOrders(c: Config, hmacHex: HmacHex, counter: nat, primary: Value, secondary: Value,
                           pageIndex: real, pageSize: real): (p: Prepared)
    ensures p.result.Success? <==> HasCredentials(c) && 1.0 <= pageIndex && 1.0 <= pageSize <= 50.0
    ensures p.result.Failure? ==> p.next == counter
    ensures p.result.Success? ==>
      && p.next == counter + 1
      && p.result.value.url == PrivateUrl(c.url, "GetClosedOrders")
      && Carries(p.result.value.body, PairPageParams(primary, secondary, pageIndex, pageSize))
  {
    PagedPostReq(c, hmacHex, counter, "GetClosedOrders", pageIndex, pageSize,
                 PairPageParams(primary, secondary, pageIndex, pageSize))
  }

  function TransactionsParams(account: Value, from: Value, to: Value, pageIndex: real, pageSize: real): map<string, Value> {
    map["accountGuid" := account, "fromTimestampUtc" := from, "toTimestampUtc" := to,
        "pageIndex" := Num(pageIndex), "pageSize" := Num(pageSize)]
  }

  /** `getTransactions`: a guarded `GetTransactions` request whose body
      carries the account, the time window and the page. */
  function GetTransactions(c: Config, hmacHex: HmacHex, counter: nat, account: Value, from: Value, to: Value,
                           pageIndex: real, pageSize: real): (p: Prepared)
    ensures p.result.Success? <==> HasCredentials(c) && 1.0 <= pageIndex && 1.0 <= pageSize <= 50.0
    ensures p.result.Failure? ==> p.next == counter
    ensures p.result.Success? ==>
      && p.next == counter + 1
      && p.result.value.url == PrivateUrl(c.url, "GetTransactions")
      && Carries(p.result.value.body, TransactionsParams(account, from, to, pageIndex, pageSize))
  {
    PagedPostReq(c, hmacHex, counter, "GetTransactions", pageIndex, pageSize,
                 TransactionsParams(account, from, to, pageIndex, pageSize))
  }

  /** A bad page is reported even when the credentials are missing too. */
  lemma PagingCheckedBeforeCredentials(c: Config, hmacHex: HmacHex, counter: nat, action: string,
                                       pageIndex: real, pageSize: real, params: map<string, Value>)
    requires !HasCredentials(c)
    ensures PagedPostReq(c, hmacHex, counter, action, pageIndex, pageSize, params).result.error
         == (if CheckPaging(pageIndex, pageSize).Some? then CheckPaging(pageIndex, pageSize).value
             else MissingCredentials)
  {
  }

  /** One private call a program makes on a client: plain, or paged. */
  datatype Call =
    | Plain(action: string, params: map<string, Value>)
    | Paged(action: string, pageIndex: real, pageSize: real, params: map<string, Value>)

  function Step(c: Config, hmacHex: HmacHex, counter: nat, call: Call): (p: Prepared)
    ensures p.result.Success? ==> p.result.value.nonce == counter && p.next == counter + 1
    ensures p.result.Failure? ==> p.next == counter
  {
    match call
    case Plain(action, params) => PostReq(c, hmacHex, counter, action, params)
    case Paged(action, pageIndex, pageSize, params) =>
      PagedPostReq(c, hmacHex, counter, action, pageIndex, pageSize, params)
  }

  /** The outcomes of a sequence of calls, and the counter after them. */
  datatype Trace = Trace(results: seq<Result<PrivateRequest, ApiError>>, next: nat)

  /** Runs calls one after another on one client, threading the counter. */
  function Run(c: Config, hmacHex: HmacHex, counter: nat, calls: seq<Call>): (t: Trace)
    ensures |t.results| == |calls|
    ensures t.next >= counter
    decreases |calls|
  {
    if |calls| == 0 then Trace([], counter)
    else
      var first := Step(c, hmacHex, counter, calls[0]);
      var rest := Run(c, hmacHex, first.next, calls[1..]);
      Trace([first.result] + rest.results, rest.next)
  }

  /** The nonces carried by the requests that were prepared, in order. */
  function NoncesUsed(results: seq<Result<PrivateRequest, ApiError>>): seq<nat> {
    if |results| == 0 then []
    else (if results[0].Success? then [results[0].value.nonce] else []) + NoncesUsed(results[1..])
  }

  /** Over any sequence of calls, the nonces used are the counter's start
      value, then one more, and so on, with no gap; the counter ends one
      past the last of them. */
  lemma {:induction false} NoncesConsecutive(c: Config, hmacHex: HmacHex, counter: nat, calls: seq<Call>)
    ensures var t := Run(c, hmacHex, counter, calls);
      var ns := NoncesUsed(t.results);
      && t.next == counter + |ns|
      && forall i :: 0 <= i < |ns| ==> ns[i] == counter + i
    decreases |calls|
  {
    if |calls| > 0 {
      var first := Step(c, hmacHex, counter, calls[0]);
      var rest := Run(c, hmacHex, first.next, calls[1..]);
      NoncesConsecutive(c, hmacHex, first.next, calls[1..]);
      var t := Run(c, hmacHex, counter, calls);
      assert t.results == [first.result] + rest.results;
      assert t.results[1..] == rest.results;
    }
  }

  /** Hence the nonces used are strictly increasing and never repeat. */
  lemma NoncesStrictlyIncreasing(c: Config, hmacHex: HmacHex, counter: nat, calls: seq<Call>)
    ensures var ns := NoncesUsed(Run(c, hmacHex, counter, calls).results);
      forall i, j :: 0 <= i < j < |ns| ==> ns[i] < ns[j]
  {
    NoncesConsecutive(c, hmacHex, counter, calls);
  }

  /** Without credentials, no call prepares a request and the counter never
      moves. */
  lemma {:induction false} NoCredentialsNoNonce(c: Config, hmacHex: HmacHex, counter: nat, calls: seq<Call>)
    requires !HasCredentials(c)
    ensures var t := Run(c, hmacHex, counter, calls);
      t.next == counter && NoncesUsed(t.results) == []
      && forall i :: 0 <= i < |t.results| ==> t.results[i].Failure?
    decreases |calls|
  {
    if |calls| > 0 {
      NoCredentialsNoNonce(c, hmacHex, counter, calls[1..]);
      var t := Run(c, hmacHex, counter, calls);
      assert t.results[1..] == Run(c, hmacHex, counter, calls[1..]).results;
    }
  }
}
