/**
 * `NioCommand._get_url`: the command URL on the n.io REST interface and the
 * headers to send with it. The three name expressions arrive evaluated
 * (`None` for an evaluation that raised); `params` is the dict of
 * `_get_params` and `headers` the outcome of `_get_headers`.
 */
module CommandUrl {
  import opened Wrappers
  import opened Text
  import opened Headers
  import opened Params

  /** What `_get_url` produces. */
  datatype UrlResult =
    | NoCommand                                  // `return None, None`
    | Raised(error: HeaderError)                 // `_get_headers` raised
    | Command(url: string, headers: HeaderMap)   // `return url, headers`

  const Scheme: string := "http://"
  const ServicesPath: string := "/services/"

  /** The evaluations that make `_get_url` give up: one raised, or the service or command is empty. */
  predicate Unusable(service: Option<string>, block: Option<string>, command: Option<string>) {
    service.None? || block.None? || command.None? || service == Some("") || command == Some("")
  }

  /**
   * `_get_url`: fails closed to `NoCommand`; otherwise formats
   * `http://{host}:{port}/services/{service}/{command}?{query}`, with
   * `{block}/` before the command when the block name is not empty.
   */
  function BuildUrl(host: string, port: int, service: Option<string>, block: Option<string>,
                    command: Option<string>, params: Dict,
                    headers: Result<HeaderMap, HeaderError>): (r: UrlResult)
    ensures r.NoCommand? <==> Unusable(service, block, command)
    ensures r.Raised? <==> !Unusable(service, block, command) && headers.Failure?
    ensures r.Raised? ==> r.error == headers.error
    ensures r.Command? ==> r.headers == headers.value
  {
    if service.None? || block.None? || command.None? then NoCommand
    else if service.value == "" || command.value == "" then NoCommand
    else
      var url := Scheme + host + ":" + IntToDecimal(port) + ServicesPath + service.value + "/"
                 + BlockPart(block.value) + (command.value + "?" + Query(params));
      match headers
      case Failure(e) => Raised(e)
      case Success(h) => Command(url, h)
  }

  /** The segments after the service: the block when there is one, then the command with its query. */
  function BlockTail(block: string, last: string): seq<string> {
    if block == "" then [last] else [block, last]
  }

  function PathSegments(host: string, port: int, service: string, block: string, command: string,
                        query: string): seq<string> {
    ["http:"] + ([""] + ([host + ":" + IntToDecimal(port)] + (["services"] + ([service]
      + BlockTail(block, command + "?" + query)))))
  }

  lemma NoSlashInDecimal(i: int)
    ensures '/' !in IntToDecimal(i)
  {
    var s := IntToDecimal(i);
    forall k | 0 <= k < |s|
      ensures s[k] != '/'
    {
      if k > 0 || i >= 0 {
        assert IsDigit(s[k]);
      }
    }
  }

  lemma NotInConcat(c: char, a: string, b: string)
    requires c !in a && c !in b
    ensures c !in a + b
  {
    assert forall k :: 0 <= k < |a + b| ==> (a + b)[k] == if k < |a| then a[k] else b[k - |a|];
  }

  /** Regrouping the joined segments; the pieces are kept abstract so only associativity is at work. */
  lemma Regroup(p: string, q: string, authority: string, r: string, service: string, rest: string, slash: string)
    ensures p + slash + (q + slash + (authority + slash + (r + slash + (service + slash + rest))))
         == (p + slash + q + slash) + authority + (slash + r + slash) + service + slash + rest
  {
  }

  lemma ConcatAssoc(a: string, b: string, c: string)
    ensures a + (b + c) == a + b + c
  {
  }

  function BlockPart(block: string): string {
    if block == "" then "" else block + "/"
  }

  lemma JoinBlockTail(block: string, last: string)
    ensures Join(BlockTail(block, last), '/') == BlockPart(block) + last
  {
    if block != "" {
      JoinCons(block, [last], '/');
      assert BlockTail(block, last) == [block] + [last];
    } else {
      assert BlockTail(block, last) == [last];
    }
  }

  lemma JoinSegments(p: string, q: string, authority: string, r: string, service: string,
                     tail: seq<string>, sep: char)
    requires |tail| >= 1
    ensures Join([p] + ([q] + ([authority] + ([r] + ([service] + tail)))), sep)
         == p + [sep] + (q + [sep] + (authority + [sep] + (r + [sep] + (service + [sep] + Join(tail, sep)))))
  {
    JoinCons(service, tail, sep);
    JoinCons(r, [service] + tail, sep);
    JoinCons(authority, [r] + ([service] + tail), sep);
    JoinCons(q, [authority] + ([r] + ([service] + tail)), sep);
    JoinCons(p, [q] + ([authority] + ([r] + ([service] + tail))), sep);
  }

  lemma ServicesUrl(host: string, port: string, service: string, rest: string)
    ensures "http:" + "/" + ("" + "/" + ((host + ":" + port) + "/" + ("services" + "/" + (service + "/" + rest))))
         == Scheme + host + ":" + port + ServicesPath + service + "/" + rest
  {
    Regroup("http:", "", host + ":" + port, "services", service, rest, "/");
    assert "http:" + "/" + "" + "/" == Scheme;
    assert "/" + "services" + "/" == ServicesPath;
    ConcatAssoc(Scheme, host + ":", port);
    ConcatAssoc(Scheme, host, ":");
  }

  lemma JoinPathSegments(host: string, port: int, service: string, block: string, command: string, query: string)
    ensures Join(PathSegments(host, port, service, block, command, query), '/')
         == Scheme + host + ":" + IntToDecimal(port) + ServicesPath + service + "/" + BlockPart(block) + (command + "?" + query)
  {
    var last := command + "?" + query;
    JoinBlockTail(block, last);
    JoinSegments("http:", "", host + ":" + IntToDecimal(port), "services", service, BlockTail(block, last), '/');
    ServicesUrl(host, IntToDecimal(port), service, BlockPart(block) + last);
    ConcatAssoc(Scheme + host + ":" + IntToDecimal(port) + ServicesPath + service + "/", BlockPart(block), last);
  }

  lemma PlainPathSegments(host: string, port: int, service: string, block: string, command: string, query: string)
    requires '/' !in host && '/' !in service && '/' !in block && '/' !in command && '/' !in query
    ensures forall k :: 0 <= k < |PathSegments(host, port, service, block, command, query)| ==>
              '/' !in PathSegments(host, port, service, block, command, query)[k]
  {
    NoSlashInDecimal(port);
    NotInConcat('/', host, ":");
    NotInConcat('/', host + ":", IntToDecimal(port));
    NotInConcat('/', command, "?");
    NotInConcat('/', command + "?", query);
  }

  /**
   * Reading a command URL back: split on '/', it gives the scheme, the
   * authority, "services", the service, the block when there is one, and
   * the command with its query, in that order.
   */
  lemma UrlSegments(host: string, port: int, service: string, block: string, command: string,
                    params: Dict, headers: HeaderMap)
    requires '/' !in host && '/' !in service && '/' !in block && '/' !in command && '/' !in Query(params)
    requires service != "" && command != ""
    ensures var r := BuildUrl(host, port, Some(service), Some(block), Some(command), params, Success(headers));
            && r.Command?
            && Split(r.url, '/') == PathSegments(host, port, service, block, command, Query(params))
  {
    var parts := PathSegments(host, port, service, block, command, Query(params));
    JoinPathSegments(host, port, service, block, command, Query(params));
    PlainPathSegments(host, port, service, block, command, Query(params));
    SplitJoin(parts, '/');
  }

  lemma Port8181()
    ensures IntToDecimal(8181) == "8181"
  {
    assert NatToDecimal(8) == "8";
    assert NatToDecimal(81) == "81";
    assert NatToDecimal(818) == "818";
  }

  /**
   * The block's own tests of `_get_url` (host 127.0.0.1, port 8181, service
   * "service", command "start"), for any headers; with security method NONE
   * the headers are just Content-Type (see `GetHeaders`). Each expected URL
   * is the test's own format template filled in.
   */
  lemma TestGetUrlNoBlock(h: HeaderMap)
    ensures BuildUrl("127.0.0.1", 8181, Some("service"), Some(""), Some("start"), [], Success(h))
            == Command("http://" + "127.0.0.1" + ":" + "8181" + "/services/" + "service" + "/" + "start" + "?", h)
  {
    Port8181();
    QueryExamples();
  }

  lemma TestGetUrlBlock(h: HeaderMap)
    ensures BuildUrl("127.0.0.1", 8181, Some("service"), Some("block"), Some("start"), [], Success(h))
            == Command("http://" + "127.0.0.1" + ":" + "8181" + "/services/" + "service" + "/" + "block" + "/"
                       + "start" + "?", h)
  {
    Port8181();
    QueryExamples();
  }

  lemma TestGetUrlParams(h: HeaderMap)
    ensures BuildUrl("127.0.0.1", 8181, Some("service"), Some("block"), Some("start"),
                     [("p1", "v1"), ("p2", "v2")], Success(h))
            == Command("http://" + "127.0.0.1" + ":" + "8181" + "/services/" + "service" + "/" + "block" + "/"
                       + "start" + "?p1=v1&p2=v2", h)
  {
    Port8181();
    QueryExamples();
  }
}
