/** The content fetcher's redirect loop. Name resolution, the network, the joining of
    relative locations and the classification of addresses are parameters: every statement
    holds whatever they answer, a different answer each time included. */
module Fetcher {

  import opened Wrappers

  /** A parsed URL; `credentials` says that it carries a user name or a password. */
  datatype Url = Url(scheme: string, credentials: bool, host: string, port: Option<nat>, path: string)

  datatype Flags = Flags(loopback: bool, isPrivate: bool, linkLocal: bool, multicast: bool, unspecified: bool, reserved: bool)

  /** An address as the `ipaddress` module describes it; a version 6 address may wrap a
      version 4 one. */
  datatype Ip = V4(flags: Flags) | V6(flags: Flags, mapped: Option<(string, Flags)>)

  datatype Config = Config(
    schemes: set<string>, allowPrivate: bool, allowLocalhost: bool, maxRedirects: int,
    headerAllowlist: set<string>, skipDns: bool)

  datatype Reply = Failed | Redirect(location: Option<string>) | Status(code: int)

  type Headers = map<string, string>

  /** A request as sent: the logical URL, the address it is pinned to, the caller's headers
      that go with it, and the number of the name resolution the address came from. */
  datatype Request = Request(url: Url, address: Option<string>, headers: Headers, resolution: nat)

  datatype Fetched = Page(url: Url) | Refused(url: Url)

  const METADATA_IPS: set<string> :=
    {"169.254.169.254", "169.254.169.253", "169.254.169.154", "100.100.100.200", "169.254.0.1"}

  const SENSITIVE_HEADERS: set<string> :=
    {"authorization", "x-api-key", "x-subscription-token", "x-brave-api-key", "x-goog-api-key", "cookie", "set-cookie"}

  // ---------------------------------------------------------------- the checks

  /** `_validate_url`. */
  predicate ValidUrl(c: Config, url: Url) {
    url.scheme in c.schemes && !url.credentials && url.host != "" && |url.host| <= 253
  }

  predicate FlagsAllowed(c: Config, f: Flags) {
    (f.loopback ==> c.allowLocalhost) && (f.isPrivate ==> c.allowPrivate)
    && !f.linkLocal && !f.multicast && !f.unspecified && !f.reserved
  }

  /** `_is_address_allowed`: text that is no address is refused; a wrapped version 4 address
      must pass as well. */
  predicate AddressAllowed(c: Config, parse: string -> Option<Ip>, text: string) {
    parse(text).Some? && FlagsAllowed(c, parse(text).value.flags) && text !in METADATA_IPS
    && (parse(text).value.V6? && parse(text).value.mapped.Some? ==>
          FlagsAllowed(c, parse(text).value.mapped.value.1) && parse(text).value.mapped.value.0 !in METADATA_IPS)
  }

  /** `_resolve_public_address`: the first address of a resolution all of whose addresses are
      allowed. */
  function Resolve(c: Config, parse: string -> Option<Ip>, answer: Option<seq<string>>): Option<string> {
    if answer.Some? && answer.value != [] && forall i :: 0 <= i < |answer.value| ==> AddressAllowed(c, parse, answer.value[i])
    then Some(answer.value[0]) else None
  }

  /** `str.lower`, as far as it can lead to a letter of the names below: the Kelvin sign is
      the one letter outside ASCII whose lower case is an ASCII letter alone. */
  function LowerChar(ch: char): char {
    if 'A' <= ch <= 'Z' then (ch as int + 32) as char else if ch == '\U{212A}' then 'k' else ch
  }

  function Lower(s: string): string { seq(|s|, i requires 0 <= i < |s| => LowerChar(s[i])) }

  /** Sensitive and not on the caller's allow-list. */
  predicate Withheld(c: Config, name: string) { Lower(name) in SENSITIVE_HEADERS && Lower(name) !in c.headerAllowlist }

  /** `_sanitize_headers`. */
  function Sanitize(c: Config, headers: Headers): Headers {
    map k | k in headers && !Withheld(c, k) :: headers[k]
  }

  // ---------------------------------------------------------------- what a run promises

  /** The world outside: address parsing, the k-th name resolution, the reply to the k-th
      request, and the resolution of relative locations. */
  datatype Outside = Outside(
    parse: string -> Option<Ip>, dns: (nat, string) -> Option<seq<string>>, net: nat -> Reply, join: (Url, string) -> Url)

  /** The request may be sent: its URL is valid, and with DNS checks on it goes to the first
      address of a resolution of its own host whose every address is allowed. */
  predicate Permitted(c: Config, o: Outside, r: Request) {
    ValidUrl(c, r.url)
    && if c.skipDns then r.address.None?
       else r.address.Some? && r.address == Resolve(c, o.parse, o.dns(r.resolution, r.url.host))
  }

  predicate LeftBy(home: string, sent: seq<Request>, i: int) { exists j :: 0 <= j <= i < |sent| && sent[j].url.host != home }

  /** The caller's headers less the withheld ones, until a request goes to another host, and
      none from then on. */
  predicate Carries(c: Config, home: string, headers: Headers, sent: seq<Request>, i: nat)
    requires i < |sent|
  {
    sent[i].headers == if LeftBy(home, sent, i) then map[] else Sanitize(c, headers)
  }

  /** Request `i` went where the reply to the one before it pointed, after the new host had been
      resolved once already. */
  predicate Follows(c: Config, o: Outside, sent: seq<Request>, i: nat)
    requires 0 < i <= |sent|
  {
    i <= c.maxRedirects && Points(o, i - 1)
    && (i < |sent| ==>
          sent[i].url == o.join(sent[i - 1].url, o.net(i - 1).location.value)
          && (!c.skipDns ==> Resolve(c, o.parse, o.dns(2 * i - 1, sent[i].url.host)).Some?))
  }

  predicate Points(o: Outside, i: nat) {
    o.net(i).Redirect? && o.net(i).location.Some? && o.net(i).location.value != ""
  }

  /** The promises for the requests sent by one call. */
  predicate SentWell(c: Config, url: Url, headers: Headers, o: Outside, sent: seq<Request>) {
    && (forall i :: 0 <= i < |sent| ==> Permitted(c, o, sent[i]) && Carries(c, url.host, headers, sent, i))
    && (forall i :: 0 <= i < |sent| ==> sent[i].resolution == if c.skipDns then 0 else 2 * i)
    && (forall i :: 0 < i < |sent| ==> Follows(c, o, sent, i))
    && (sent != [] ==> sent[0].url == url)
  }

  /** What the loop knows before it sends: `current` is valid and where the last reply
      pointed, and which headers go with it. */
  predicate Ready(c: Config, url: Url, headers: Headers, o: Outside, sent: seq<Request>, current: Url, now: Headers) {
    && ValidUrl(c, current)
    && now == (if current.host != url.host || LeftBy(url.host, sent, |sent| - 1) then map[] else Sanitize(c, headers))
    && (if sent == [] then current == url
        else
          Follows(c, o, sent, |sent|)
          && current == o.join(sent[|sent| - 1].url, o.net(|sent| - 1).location.value)
          && (!c.skipDns ==> Resolve(c, o.parse, o.dns(2 * |sent| - 1, current.host)).Some?))
  }

  lemma SendingKeeps(
    c: Config, url: Url, headers: Headers, o: Outside, sent: seq<Request>, current: Url, now: Headers, address: Option<string>)
    requires SentWell(c, url, headers, o, sent) && Ready(c, url, headers, o, sent, current, now)
    requires if c.skipDns then address.None?
             else address.Some? && address == Resolve(c, o.parse, o.dns(2 * |sent|, current.host))
    ensures SentWell(c, url, headers, o, sent + [Request(current, address, now, if c.skipDns then 0 else 2 * |sent|)])
  {
    hide Resolve;
    hide Sanitize;
    hide ValidUrl;
    hide Points;
    var r := Request(current, address, now, if c.skipDns then 0 else 2 * |sent|);
    var all := sent + [r];
    assert Permitted(c, o, r);
    forall i | 0 <= i < |all|
      ensures Carries(c, url.host, headers, all, i)
    {
      SameLeft(url.host, sent, r, i);
      assert i < |sent| ==> Carries(c, url.host, headers, sent, i);
    }
    hide Permitted;
    forall i | 0 < i < |all|
      ensures Follows(c, o, all, i)
    {
      assert i < |sent| ==> Follows(c, o, sent, i);
    }
  }

  lemma SameLeft(home: string, sent: seq<Request>, r: Request, i: nat)
    requires i <= |sent|
    ensures LeftBy(home, sent + [r], i)
            <==> if i < |sent| then LeftBy(home, sent, i) else r.url.host != home || LeftBy(home, sent, |sent| - 1)
  {
    var all := sent + [r];
    if LeftBy(home, sent, |sent| - 1) {
      var j :| 0 <= j < |sent| && sent[j].url.host != home;
      assert all[j].url.host != home;
    }
    assert r.url.host != home ==> all[|sent|].url.host != home;
    if i < |sent| && LeftBy(home, sent, i) {
      var j :| 0 <= j <= i && sent[j].url.host != home;
      assert all[j].url.host != home;
    }
  }

  lemma SanitizeTwice(c: Config, headers: Headers)
    ensures Sanitize(c, Sanitize(c, headers)) == Sanitize(c, headers) && Sanitize(c, map[]) == map[]
  {
    hide Withheld;
  }

  lemma HoppingKeeps(
    c: Config, url: Url, headers: Headers, o: Outside, sent: seq<Request>, r: Request, next: Url)
    requires Ready(c, url, headers, o, sent, r.url, r.headers) && SentWell(c, url, headers, o, sent + [r])
    requires |sent| < c.maxRedirects && Points(o, |sent|)
    requires next == o.join(r.url, o.net(|sent|).location.value) && ValidUrl(c, next)
    requires !c.skipDns ==> Resolve(c, o.parse, o.dns(2 * |sent| + 1, next.host)).Some?
    ensures Ready(c, url, headers, o, sent + [r], next,
                  if next.host != url.host then map[] else Sanitize(c, r.headers))
  {
    hide Resolve;
    hide SentWell;
    SanitizeTwice(c, headers);
    SameLeft(url.host, sent, r, |sent|);
    hide Sanitize;
    hide LeftBy;
    hide ValidUrl;
    assert Follows(c, o, sent + [r], |sent| + 1);
  }

  /** The last of the resolutions made was for this host, and was refused. */
  predicate Unresolved(c: Config, o: Outside, host: string, lookups: nat) {
    !c.skipDns && lookups > 0 && Resolve(c, o.parse, o.dns(lookups - 1, host)).None?
  }

  /** The only reasons to give up, and the URL that is reported with each. */
  predicate MayStop(c: Config, url: Url, o: Outside, sent: seq<Request>, lookups: nat, at: Url) {
    if sent == [] then at == url && if ValidUrl(c, url) then lookups == 1 && Unresolved(c, o, url.host, lookups) else lookups == 0
    else
      var last := sent[|sent| - 1].url;
      var asked := if c.skipDns then 0 else 2 * |sent| - 1;
      match o.net(|sent| - 1)
      case Failed => at == url && lookups == asked
      case Status(code) => code != 200 && at == last && lookups == asked
      case Redirect(location) =>
        if |sent| > c.maxRedirects || location.None? || location.value == "" then at == last && lookups == asked
        else
          at == o.join(last, location.value)
          && if ValidUrl(c, at) then lookups in {asked + 1, asked + 2} && Unresolved(c, o, at.host, lookups) else lookups == asked
  }

  lemma StopAtCurrent(c: Config, url: Url, headers: Headers, o: Outside, sent: seq<Request>, current: Url, now: Headers)
    requires Ready(c, url, headers, o, sent, current, now) && !c.skipDns
    requires Resolve(c, o.parse, o.dns(2 * |sent|, current.host)).None?
    ensures MayStop(c, url, o, sent, 2 * |sent| + 1, current)
  {
    hide Resolve;
    if sent != [] { assert Follows(c, o, sent, |sent|); }
  }

  lemma StopAfter(c: Config, url: Url, o: Outside, sent: seq<Request>, lookups: nat, at: Url)
    requires sent != []
    requires var last := sent[|sent| - 1].url;
             var asked := if c.skipDns then 0 else 2 * |sent| - 1;
             match o.net(|sent| - 1)
             case Failed => at == url && lookups == asked
             case Status(code) => code != 200 && at == last && lookups == asked
             case Redirect(location) =>
               if |sent| > c.maxRedirects || location.None? || location.value == "" then at == last && lookups == asked
               else
                 at == o.join(last, location.value)
                 && if !ValidUrl(c, at) then lookups == asked
                    else !c.skipDns && lookups == asked + 1 && Resolve(c, o.parse, o.dns(asked, at.host)).None?
    ensures MayStop(c, url, o, sent, lookups, at)
  {
    hide Resolve;
    hide ValidUrl;
  }

  lemma StopAtOnce(c: Config, url: Url, o: Outside)
    ensures !ValidUrl(c, url) ==> MayStop(c, url, o, [], 0, url)
  {
  }

  lemma NothingSent(c: Config, url: Url, headers: Headers, o: Outside)
    ensures SentWell(c, url, headers, o, [])
    ensures ValidUrl(c, url) ==> Ready(c, url, headers, o, [], url, Sanitize(c, headers))
  {
    hide ValidUrl;
    hide Sanitize;
  }

  function Most(c: Config): nat { if c.maxRedirects > 0 then c.maxRedirects else 0 }

  /** `fetch`; `lookups` is the number of name resolutions made. */
  method Fetch(c: Config, url: Url, headers: Headers, o: Outside) returns (r: Fetched, sent: seq<Request>, lookups: nat)
    ensures |sent| <= 1 || |sent| <= c.maxRedirects + 1
    ensures SentWell(c, url, headers, o, sent)
    ensures r.Page? <==> sent != [] && o.net(|sent| - 1) == Status(200)
    ensures r.Page? ==> r.url == sent[|sent| - 1].url && lookups == if c.skipDns then 0 else 2 * |sent| - 1
    ensures r.Refused? ==> MayStop(c, url, o, sent, lookups, r.url)
  {
    hide SentWell;
    hide Ready;
    hide ValidUrl;
    hide Sanitize;
    hide Resolve;
    hide MayStop;
    hide Unresolved;
    sent, lookups := [], 0;
    StopAtOnce(c, url, o);
    NothingSent(c, url, headers, o);
    if !ValidUrl(c, url) { return Refused(url), sent, lookups; }
    var redirects, current, now := 0, url, Sanitize(c, headers);
    while true
      invariant redirects == |sent| <= Most(c) && (sent != [] ==> o.net(|sent| - 1).Redirect?)
      invariant lookups == if c.skipDns then 0 else 2 * |sent|
      invariant SentWell(c, url, headers, o, sent) && Ready(c, url, headers, o, sent, current, now)
      decreases Most(c) - redirects
    {
      var address: Option<string> := None;
      var resolution := lookups;
      if !c.skipDns {
        address := Resolve(c, o.parse, o.dns(lookups, current.host));
        lookups := lookups + 1;
        if address.None? {
          StopAtCurrent(c, url, headers, o, sent, current, now);
          return Refused(current), sent, lookups;
        }
      }
      SendingKeeps(c, url, headers, o, sent, current, now, address);
      var reply := o.net(|sent|);
      ghost var before := sent;
      var request := Request(current, address, now, resolution);
      sent := sent + [request];
      match reply {
        case Failed =>
          StopAfter(c, url, o, sent, lookups, url);
          return Refused(url), sent, lookups;
        case Status(code) =>
          if code != 200 {
            StopAfter(c, url, o, sent, lookups, current);
            return Refused(current), sent, lookups;
          }
          return Page(current), sent, lookups;
        case Redirect(location) =>
          redirects := redirects + 1;
          if redirects > c.maxRedirects {
            StopAfter(c, url, o, sent, lookups, current);
            return Refused(current), sent, lookups;
          }
          if location.None? || location.value == "" {
            StopAfter(c, url, o, sent, lookups, current);
            return Refused(current), sent, lookups;
          }
          var next := o.join(current, location.value);
          if !ValidUrl(c, next) {
            StopAfter(c, url, o, sent, lookups, next);
            return Refused(next), sent, lookups;
          }
          if !c.skipDns {
            var probe := Resolve(c, o.parse, o.dns(lookups, next.host));
            lookups := lookups + 1;
            if probe.None? {
              StopAfter(c, url, o, sent, lookups, next);
              return Refused(next), sent, lookups;
            }
          }
          HoppingKeeps(c, url, headers, o, before, request, next);
          now := if next.host != url.host then map[] else Sanitize(c, now);
          current := next;
      }
    }
  }

  // ---------------------------------------------------------------- what it means for the caller

  /** The same name but for the case of its letters. */
  predicate SameName(k: string, name: string) {
    |k| == |name| && forall i :: 0 <= i < |k| ==>
      k[i] == name[i] || ('A' <= k[i] <= 'Z' && k[i] as int + 32 == name[i] as int) || (k[i] == '\U{212A}' && name[i] == 'k')
  }

  lemma LowerIsSame(k: string, name: string)
    requires forall i :: 0 <= i < |name| ==> !('A' <= name[i] <= 'Z') && name[i] != '\U{212A}'
    ensures Lower(k) == name <==> SameName(k, name)
  {
    var low := Lower(k);
    forall i | 0 <= i < |k| && |k| == |name|
      ensures low[i] == name[i] <==>
              k[i] == name[i] || ('A' <= k[i] <= 'Z' && k[i] as int + 32 == name[i] as int) || (k[i] == '\U{212A}' && name[i] == 'k')
    {
      assert low[i] == LowerChar(k[i]);
    }
    if SameName(k, name) { assert forall i :: 0 <= i < |k| ==> low[i] == name[i]; }
    if low == name { assert forall i :: 0 <= i < |k| ==> low[i] == name[i]; }
  }

  lemma SensitiveNames(k: string)
    ensures Lower(k) in SENSITIVE_HEADERS <==>
              SameName(k, "authorization") || SameName(k, "x-api-key") || SameName(k, "x-subscription-token")
              || SameName(k, "x-brave-api-key") || SameName(k, "x-goog-api-key") || SameName(k, "cookie") || SameName(k, "set-cookie")
    ensures Lower(k) in SENSITIVE_HEADERS ==> SameName(k, Lower(k))
  {
    hide Lower;
    hide SameName;
    LowerIsSame(k, "authorization");
    LowerIsSame(k, "x-api-key");
    LowerIsSame(k, "x-subscription-token");
    LowerIsSame(k, "x-brave-api-key");
    LowerIsSame(k, "x-goog-api-key");
    LowerIsSame(k, "cookie");
    LowerIsSame(k, "set-cookie");
  }

  /** A caller's header is in the first request, with its value, unless it has one of seven
      names in any letter case that is not on the allow-list; and no other header is in any
      request. */
  lemma HeadersSent(c: Config, url: Url, headers: Headers, o: Outside, sent: seq<Request>, i: nat, k: string)
    requires SentWell(c, url, headers, o, sent) && i < |sent|
    ensures k in sent[0].headers <==>
              && k in headers
              && (SameName(k, "authorization") ==> "authorization" in c.headerAllowlist)
              && (SameName(k, "x-api-key") ==> "x-api-key" in c.headerAllowlist)
              && (SameName(k, "x-subscription-token") ==> "x-subscription-token" in c.headerAllowlist)
              && (SameName(k, "x-brave-api-key") ==> "x-brave-api-key" in c.headerAllowlist)
              && (SameName(k, "x-goog-api-key") ==> "x-goog-api-key" in c.headerAllowlist)
              && (SameName(k, "cookie") ==> "cookie" in c.headerAllowlist)
              && (SameName(k, "set-cookie") ==> "set-cookie" in c.headerAllowlist)
    ensures k in sent[i].headers ==> k in headers && sent[i].headers[k] == headers[k]
    ensures k in sent[i].headers <==> k in sent[0].headers && forall j :: 0 <= j <= i ==> sent[j].url.host == url.host
  {
    hide Permitted;
    hide Follows;
    assert Carries(c, url.host, headers, sent, 0) && Carries(c, url.host, headers, sent, i);
    assert !LeftBy(url.host, sent, 0);
    hide SentWell;
    assert LeftBy(url.host, sent, i) <==> !(forall j :: 0 <= j <= i ==> sent[j].url.host == url.host) by {
      hide Sanitize;
    }
    hide LeftBy;
    WithheldExactly(c, k);
    hide Withheld;
    hide SameName;
  }

  lemma WithheldExactly(c: Config, k: string)
    ensures !Withheld(c, k) <==>
              && (SameName(k, "authorization") ==> "authorization" in c.headerAllowlist)
              && (SameName(k, "x-api-key") ==> "x-api-key" in c.headerAllowlist)
              && (SameName(k, "x-subscription-token") ==> "x-subscription-token" in c.headerAllowlist)
              && (SameName(k, "x-brave-api-key") ==> "x-brave-api-key" in c.headerAllowlist)
              && (SameName(k, "x-goog-api-key") ==> "x-goog-api-key" in c.headerAllowlist)
              && (SameName(k, "cookie") ==> "cookie" in c.headerAllowlist)
              && (SameName(k, "set-cookie") ==> "set-cookie" in c.headerAllowlist)
  {
    hide Lower;
    hide SameName;
    SensitiveNames(k);
    LowerIsSame(k, "authorization");
    LowerIsSame(k, "x-api-key");
    LowerIsSame(k, "x-subscription-token");
    LowerIsSame(k, "x-brave-api-key");
    LowerIsSame(k, "x-goog-api-key");
    LowerIsSame(k, "cookie");
    LowerIsSame(k, "set-cookie");
  }

  /** Which addresses are allowed, and so when a resolution is. */
  lemma AllowedExactly(c: Config, parse: string -> Option<Ip>, text: string)
    ensures AddressAllowed(c, parse, text) <==>
              && text != "169.254.169.254" && text != "169.254.169.253" && text != "169.254.169.154"
              && text != "100.100.100.200" && text != "169.254.0.1" && parse(text).Some?
              && var ip := parse(text).value;
              && (c.allowLocalhost || !ip.flags.loopback) && (c.allowPrivate || !ip.flags.isPrivate)
              && !ip.flags.linkLocal && !ip.flags.multicast && !ip.flags.unspecified && !ip.flags.reserved
              && (ip.V4? || ip.mapped.None? ||
                  (var (four, f) := ip.mapped.value;
                   && four != "169.254.169.254" && four != "169.254.169.253" && four != "169.254.169.154"
                   && four != "100.100.100.200" && four != "169.254.0.1"
                   && (c.allowLocalhost || !f.loopback) && (c.allowPrivate || !f.isPrivate)
                   && !f.linkLocal && !f.multicast && !f.unspecified && !f.reserved))
  {
  }

  /** Every request goes out with an allowed scheme, without credentials and to a host name of
      1 to 253 characters; with DNS checks on, it goes to the first address of a resolution of
      that host, and no address of that resolution, wrapped or not, is link-local, multicast,
      unspecified, reserved, a metadata address, or private or loopback if that is not
      allowed. */
  lemma RequestsSent(c: Config, url: Url, headers: Headers, o: Outside, sent: seq<Request>, i: nat)
    requires SentWell(c, url, headers, o, sent) && i < |sent|
    ensures var u := sent[i].url; u.scheme in c.schemes && !u.credentials && 1 <= |u.host| <= 253
    ensures c.skipDns ==> sent[i].address.None?
    ensures !c.skipDns ==>
              var answer := o.dns(2 * i, sent[i].url.host);
              && answer.Some? && answer.value != [] && sent[i].address == Some(answer.value[0])
              && forall text :: text in answer.value ==>
                   && text != "169.254.169.254" && text != "169.254.169.253" && text != "169.254.169.154"
                   && text != "100.100.100.200" && text != "169.254.0.1" && o.parse(text).Some?
                   && var f := o.parse(text).value.flags;
                   && (f.loopback ==> c.allowLocalhost) && (f.isPrivate ==> c.allowPrivate)
                   && !f.linkLocal && !f.multicast && !f.unspecified && !f.reserved
                   && (o.parse(text).value.V6? && o.parse(text).value.mapped.Some? ==>
                         Reachable(c, o.parse(text).value.mapped.value))
  {
    hide Carries;
    hide Follows;
    assert Permitted(c, o, sent[i]);
    hide SentWell;
    if !c.skipDns {
      var answer := o.dns(2 * i, sent[i].url.host).value;
      forall text | text in answer
        ensures AddressAllowed(c, o.parse, text)
      {
        var n :| 0 <= n < |answer| && answer[n] == text;
      }
    }
    hide Permitted;
    hide ValidUrl;
    hide Resolve;
  }

  /** A wrapped version 4 address that may be reached. */
  predicate Reachable(c: Config, four: (string, Flags)) {
    && four.0 != "169.254.169.254" && four.0 != "169.254.169.253" && four.0 != "169.254.169.154"
    && four.0 != "100.100.100.200" && four.0 != "169.254.0.1"
    && (four.1.loopback ==> c.allowLocalhost) && (four.1.isPrivate ==> c.allowPrivate)
    && !four.1.linkLocal && !four.1.multicast && !four.1.unspecified && !four.1.reserved
  }

  /** Which URLs and which resolutions are refused. */
  lemma RefusedExactly(c: Config, parse: string -> Option<Ip>, u: Url, answer: Option<seq<string>>)
    ensures !ValidUrl(c, u) <==> u.scheme !in c.schemes || u.credentials || u.host == "" || |u.host| > 253
    ensures Resolve(c, parse, answer).None? <==>
              answer.None? || answer.value == [] || exists text :: text in answer.value && !AddressAllowed(c, parse, text)
  {
    hide AddressAllowed;
    if answer.Some? && exists text :: text in answer.value && !AddressAllowed(c, parse, text) {
      var text :| text in answer.value && !AddressAllowed(c, parse, text);
      var n :| 0 <= n < |answer.value| && answer.value[n] == text;
    }
  }

  /** Under the default configuration every request goes to an address that is not loopback,
      private, link-local or a metadata address, and wraps none. */
  lemma DefaultsStayPublic(c: Config, url: Url, headers: Headers, o: Outside, sent: seq<Request>, i: nat)
    requires SentWell(c, url, headers, o, sent) && i < |sent|
    requires !c.skipDns && !c.allowPrivate && !c.allowLocalhost
    ensures sent[i].address.Some? && o.parse(sent[i].address.value).Some?
    ensures var text, ip := sent[i].address.value, o.parse(sent[i].address.value).value;
            && !ip.flags.loopback && !ip.flags.isPrivate && !ip.flags.linkLocal
            && text != "169.254.169.254" && text != "169.254.169.253" && text != "169.254.169.154"
            && text != "100.100.100.200" && text != "169.254.0.1"
            && (ip.V6? && ip.mapped.Some? ==>
                  var (four, f) := ip.mapped.value;
                  && !f.loopback && !f.isPrivate && !f.linkLocal
                  && four != "169.254.169.254" && four != "169.254.169.253" && four != "169.254.169.154"
                  && four != "100.100.100.200" && four != "169.254.0.1")
  {
    RequestsSent(c, url, headers, o, sent, i);
    hide SentWell;
    var answer := o.dns(2 * i, sent[i].url.host).value;
    assert answer[0] in answer;
  }
}
