/**
 * `SolarNetworkNodeImageAuthorizor`: a session is authorised by replaying
 * the caller's SolarNetwork `Authorization` header against the `whoami`
 * endpoint. This module models what is computed around that request: the
 * `Host` header, the name of the signed date header, the token that is
 * logged, and how the response status is classified.
 *
 * The HTTP exchange, JSON parsing and date formatting are outside the
 * model: the response and the formatted date are parameters.
 */
module Authorizor {
  import opened Common

  /** `WebConstants.HEADER_DATE` of the SolarNetwork common library. */
  const SnDateHeader := "X-SN-Date"

  const DefaultApiHost := "data.solarnetwork.net"

  // ---------------------------------------------------------------------
  // Host header

  /**
   * `uriHost(uri)`: the host alone for ports 80 and 443, otherwise
   * host ":" port, where a URI without a port reports -1. A null host is
   * returned as is, or rendered "null" in front of a port.
   */
  function UriHost(host: Option<string>, port: int): (r: Option<string>)
    ensures port == 80 || port == 443 ==> r == host
    ensures port != 80 && port != 443 ==> r.Some?
  {
    if port != 80 && port != 443 then Some((if host.Some? then host.value else "null") + ":" + IntToString(port))
    else host
  }

  /** Away from ports 80 and 443, the text after the last ':' is the port and what precedes it the host. */
  lemma UriHostSplits(host: string, port: int)
    requires port != 80 && port != 443
    ensures var h := UriHost(Some(host), port).value;
            var i := LastIndexOf(h, ':');
            i == |host| && h[..i] == host && h[i + 1..] == IntToString(port)
  {
    var h := UriHost(Some(host), port).value;
    var digits := IntToString(port);
    assert h == host + ":" + digits;
    IntToStringHasNoColon(port);
    assert h[|host|] == ':';
    assert forall j :: |host| < j < |h| ==> h[j] == digits[j - |host| - 1];
    assert h[..|host|] == host;
    assert h[|host| + 1..] == digits;
  }

  lemma IntToStringHasNoColon(n: int)
    ensures ':' !in IntToString(n)
  {
    var r := IntToString(n);
    if n < 0 {
      NatToStringDigits(-n);
      assert forall i :: 1 <= i < |r| ==> r[i] == NatToString(-n)[i - 1];
    } else {
      NatToStringDigits(n);
    }
    assert forall i :: 0 <= i < |r| ==> r[i] != ':';
  }

  /** The default endpoint `https://data.solarnetwork.net` has no explicit port, so its Host header ends in ":-1". */
  lemma DefaultApiHostHeader()
    ensures UriHost(Some(DefaultApiHost), -1) == Some(DefaultApiHost + ":-1")
  {
    assert NatToString(1) == [DigitChar(1)] == "1";
    assert IntToString(-1) == "-1";
    assert DefaultApiHost + ":" + "-1" == DefaultApiHost + ":-1";
  }

  // ---------------------------------------------------------------------
  // The two patterns

  /** Java's `\s`: space, tab, newline, vertical tab, form feed, carriage return. */
  predicate IsSpace(c: char)
  {
    c == ' ' || c == '\t' || c == '\n' || c == '\U{B}' || c == '\U{C}' || c == '\r'
  }

  /** `,SignedHeaders=([^,]+),` and `\sCredential=([^,]+),`: a literal lead, then a captured run of non-commas closed by a comma. */
  datatype HeaderPattern = SignedHeaders | Credential

  /** Where the captured run would start if the pattern's lead occurs at `i`, or -1. */
  function LeadEnd(p: HeaderPattern, s: string, i: nat): (r: int)
    ensures r == -1 || i < r <= |s|
  {
    match p
    case SignedHeaders =>
      if i + 15 <= |s| && s[i..i + 15] == ",SignedHeaders=" then i + 15 else -1
    case Credential =>
      if i + 12 <= |s| && IsSpace(s[i]) && s[i + 1..i + 12] == "Credential=" then i + 12 else -1
  }

  /** The match of `p` starting at `i`: the run of non-commas after the lead, if non-empty and followed by a comma. */
  function MatchAt(p: HeaderPattern, s: string, i: nat): (r: Option<string>)
    ensures r.Some? ==> r.value != [] && ',' !in r.value
    ensures r.Some? ==> var j := LeadEnd(p, s, i);
              j >= 0 && j + |r.value| < |s| && s[j..j + |r.value|] == r.value && s[j + |r.value|] == ','
  {
    var j := LeadEnd(p, s, i);
    if j < 0 then None
    else
      var k := IndexOf(s[j..], ',');
      if k <= 0 then None
      else
        assert s[j..][..k] == s[j..j + k];
        Some(s[j..j + k])
  }

  /** The first position from `from` on where `p` matches, or -1 (`Matcher.find()`). */
  function FirstMatch(p: HeaderPattern, s: string, from: nat): (r: int)
    ensures r == -1 || from <= r <= |s|
    ensures r >= 0 ==> MatchAt(p, s, r).Some?
    ensures forall i :: from <= i <= |s| && (r < 0 || i < r) ==> MatchAt(p, s, i).None?
    decreases |s| + 1 - from
  {
    if from > |s| then -1
    else if MatchAt(p, s, from).Some? then from
    else FirstMatch(p, s, from + 1)
  }

  /** The captured group of the first match of `p` in `s`, or nothing. */
  function Find(p: HeaderPattern, s: string): (r: Option<string>)
    ensures r.Some? ==> r.value != [] && ',' !in r.value
    ensures r.None? <==> forall i :: 0 <= i <= |s| ==> MatchAt(p, s, i).None?
  {
    var i := FirstMatch(p, s, 0);
    if i < 0 then None else MatchAt(p, s, i)
  }

  /** The token logged for an authorization: the `Credential=` value, or null. */
  function Token(authorization: string): (r: Option<string>)
    ensures r.Some? ==> r.value != [] && ',' !in r.value
  {
    Find(Credential, authorization)
  }

  /** A SolarNetwork `SNWS2` authorization header value. */
  function Snws2(token: string, signedHeaders: string, signature: string): string
  {
    "SNWS2 Credential=" + token + ",SignedHeaders=" + signedHeaders + ",Signature=" + signature
  }

  /** A lead at `i` followed by a non-empty run of non-commas and a comma matches that run. */
  lemma MatchedGroup(p: HeaderPattern, s: string, i: nat, group: string)
    requires LeadEnd(p, s, i) >= 0
    requires group != [] && ',' !in group
    requires var j := LeadEnd(p, s, i); j + |group| < |s| && s[j..j + |group|] == group && s[j + |group|] == ','
    ensures MatchAt(p, s, i) == Some(group)
  {
    var j := LeadEnd(p, s, i);
    assert s[j..][..|group|] == group;
    assert s[j..][|group|] == ',';
    assert IndexOf(s[j..], ',') == |group|;
  }

  /** The `Credential=` value of a well-formed SNWS2 header is the token. */
  lemma Snws2Token(token: string, signedHeaders: string, signature: string)
    requires token != [] && ',' !in token
    ensures Find(Credential, Snws2(token, signedHeaders, signature)) == Some(token)
  {
    var s := Snws2(token, signedHeaders, signature);
    Snws2Layout(token, signedHeaders, signature);
    assert LeadEnd(Credential, s, 5) == 17;
    MatchedGroup(Credential, s, 5, token);
    assert s[..5] == "SNWS2";
    forall i | 0 <= i < 5
      ensures MatchAt(Credential, s, i).None?
    {
      assert s[i] == s[..5][i];
      NoCredentialLead(s, i);
    }
    FirstMatchSkips(Credential, s, 0, 5);
  }

  /** Where the parts of an SNWS2 header value sit. */
  lemma Snws2Layout(token: string, signedHeaders: string, signature: string)
    ensures var s := Snws2(token, signedHeaders, signature);
            |s| > 17 + |token| && s[..5] == "SNWS2" && s[5] == ' ' && s[6..17] == "Credential=" &&
            s[17..17 + |token|] == token && s[17 + |token|] == ','
  {
    var s := Snws2(token, signedHeaders, signature);
    assert s[..17] == "SNWS2 Credential=";
    assert s[17..17 + |token|] == token;
  }

  /** `\sCredential=` cannot start where there is no whitespace. */
  lemma NoCredentialLead(s: string, i: nat)
    requires i < |s| && !IsSpace(s[i])
    ensures MatchAt(Credential, s, i).None?
  {
  }

  /** The `SignedHeaders=` value of a well-formed SNWS2 header is the signed header list. */
  lemma Snws2SignedHeaders(token: string, signedHeaders: string, signature: string)
    requires ',' !in token
    requires signedHeaders != [] && ',' !in signedHeaders
    ensures Find(SignedHeaders, Snws2(token, signedHeaders, signature)) == Some(signedHeaders)
  {
    var s := Snws2(token, signedHeaders, signature);
    var c := 17 + |token|;
    var h := c + 15;
    assert s[..c] == "SNWS2 Credential=" + token;
    assert s[c..h] == ",SignedHeaders=";
    assert s[h..h + |signedHeaders|] == signedHeaders;
    assert s[h + |signedHeaders|] == ',';
    assert LeadEnd(SignedHeaders, s, c) == h;
    MatchedGroup(SignedHeaders, s, c, signedHeaders);
    forall i | 0 <= i < c
      ensures MatchAt(SignedHeaders, s, i).None?
    {
      assert s[i] == s[..c][i];
      NoSignedHeadersLead(s, i);
    }
    FirstMatchSkips(SignedHeaders, s, 0, c);
  }

  /** `,SignedHeaders=` cannot start where there is no comma. */
  lemma NoSignedHeadersLead(s: string, i: nat)
    requires i < |s| && s[i] != ','
    ensures MatchAt(SignedHeaders, s, i).None?
  {
    if i + 15 <= |s| {
      assert s[i..i + 15][0] == s[i];
    }
  }

  /** Positions without a match before `to` do not change the first match. */
  lemma {:induction false} FirstMatchSkips(p: HeaderPattern, s: string, lo: nat, hi: nat)
    requires lo <= hi <= |s|
    requires forall i :: lo <= i < hi ==> MatchAt(p, s, i).None?
    ensures FirstMatch(p, s, lo) == FirstMatch(p, s, hi)
    decreases hi - lo
  {
    if lo < hi {
      FirstMatchSkips(p, s, lo + 1, hi);
    }
  }

  // ---------------------------------------------------------------------
  // String.split and Arrays.binarySearch

  /** The fields without the trailing empty ones. */
  function DropTrailingEmpty(parts: seq<string>): (r: seq<string>)
    ensures |r| <= |parts| && r == parts[..|r|]
    ensures r == [] || r[|r| - 1] != ""
  {
    if |parts| > 0 && parts[|parts| - 1] == "" then DropTrailingEmpty(parts[..|parts| - 1]) else parts
  }

  /** `s.split(";")`: the text alone when `sep` does not occur, else its fields without the trailing empty ones. */
  function JavaSplit(s: string, sep: char): (r: seq<string>)
    ensures forall i :: 0 <= i < |r| ==> sep !in r[i]
  {
    if sep !in s then [s] else DropTrailingEmpty(SplitAll(s, sep))
  }

  /** Splitting a joined list of names free of `sep`, whose last name is not empty, gives the list back. */
  lemma JavaSplitJoin(names: seq<string>, sep: char)
    requires |names| >= 1 && names[|names| - 1] != ""
    requires forall i :: 0 <= i < |names| ==> sep !in names[i]
    ensures JavaSplit(Join(names, sep), sep) == names
  {
    SplitAllJoin(names, sep);
    if |names| == 1 {
      assert Join(names, sep) == names[0];
    } else {
      var s := Join(names, sep);
      assert s == names[0] + [sep] + Join(names[1..], sep);
      assert s[|names[0]|] == sep;
    }
  }

  /** `String.compareTo(a, b) < 0`: lexicographic order of the characters, a proper prefix first. */
  predicate Below(a: string, b: string)
  {
    if a == [] then b != []
    else if b == [] then false
    else if a[0] != b[0] then a[0] < b[0]
    else Below(a[1..], b[1..])
  }

  lemma {:induction false} BelowIrreflexive(a: string)
    ensures !Below(a, a)
  {
    if a != [] {
      BelowIrreflexive(a[1..]);
    }
  }

  lemma {:induction false} BelowTotal(a: string, b: string)
    ensures a == b || Below(a, b) || Below(b, a)
    ensures !(Below(a, b) && Below(b, a))
  {
    if a != [] && b != [] && a[0] == b[0] {
      BelowTotal(a[1..], b[1..]);
      if a[1..] == b[1..] {
        assert a == [a[0]] + a[1..] && b == [b[0]] + b[1..];
      }
    }
  }

  lemma {:induction false} BelowTransitive(a: string, b: string, c: string)
    requires Below(a, b) && Below(b, c)
    ensures Below(a, c)
  {
    if a != [] && a[0] == b[0] && b[0] == c[0] {
      BelowTransitive(a[1..], b[1..], c[1..]);
    }
  }

  /** Ascending in `compareTo` order, as `Arrays.binarySearch` requires. */
  predicate Sorted(a: seq<string>)
  {
    forall i, j :: 0 <= i < j < |a| ==> a[i] == a[j] || Below(a[i], a[j])
  }

  /**
   * The JDK's binary search between `low` and `high`: the middle element is
   * compared with the key, the half that cannot hold it is discarded, and
   * an absent key yields -(insertion point + 1).
   */
  function SearchBetween(a: seq<string>, key: string, low: int, high: int): (r: int)
    requires 0 <= low <= high + 1 <= |a|
    ensures r >= 0 ==> low <= r <= high && a[r] == key
    ensures r < 0 ==> low <= -(r + 1) <= high + 1
    decreases high - low + 1
  {
    if low > high then -(low + 1)
    else
      var mid := (low + high) / 2;
      if Below(a[mid], key) then SearchBetween(a, key, mid + 1, high)
      else if Below(key, a[mid]) then SearchBetween(a, key, low, mid - 1)
      else
        BelowTotal(a[mid], key);
        mid
  }

  /** `Arrays.binarySearch(a, key)`: an index holding `key`, or a negative value. */
  function BinarySearch(a: seq<string>, key: string): (r: int)
    ensures r >= 0 ==> r < |a| && a[r] == key
    ensures r < 0 ==> -(r + 1) <= |a|
  {
    SearchBetween(a, key, 0, |a| - 1)
  }

  /** On a sorted list, the search between `low` and `high` misses only keys outside that range. */
  lemma {:induction false} SearchBetweenSorted(a: seq<string>, key: string, low: int, high: int)
    requires 0 <= low <= high + 1 <= |a| && Sorted(a)
    requires forall i :: 0 <= i < low ==> Below(a[i], key)
    requires forall i :: high < i < |a| ==> Below(key, a[i])
    ensures key in a ==> SearchBetween(a, key, low, high) >= 0
    decreases high - low + 1
  {
    if low > high {
      KeyAbsent(a, key, low);
    } else {
      var mid := (low + high) / 2;
      if Below(a[mid], key) {
        BelowThrough(a, key, mid);
        SearchBetweenSorted(a, key, mid + 1, high);
      } else if Below(key, a[mid]) {
        AboveFrom(a, key, mid);
        SearchBetweenSorted(a, key, low, mid - 1);
      }
    }
  }

  /** A key above everything before `low` and below everything from `low` on is not in the list. */
  lemma KeyAbsent(a: seq<string>, key: string, low: int)
    requires 0 <= low <= |a|
    requires forall i :: 0 <= i < low ==> Below(a[i], key)
    requires forall i :: low <= i < |a| ==> Below(key, a[i])
    ensures key !in a
  {
    BelowIrreflexive(key);
  }

  /** In a sorted list, everything up to an element below the key is below it. */
  lemma BelowThrough(a: seq<string>, key: string, mid: int)
    requires 0 <= mid < |a| && Sorted(a) && Below(a[mid], key)
    ensures forall i :: 0 <= i <= mid ==> Below(a[i], key)
  {
    forall i | 0 <= i < mid && a[i] != a[mid]
      ensures Below(a[i], key)
    {
      BelowTransitive(a[i], a[mid], key);
    }
  }

  /** In a sorted list, everything from an element above the key on is above it. */
  lemma AboveFrom(a: seq<string>, key: string, mid: int)
    requires 0 <= mid < |a| && Sorted(a) && Below(key, a[mid])
    ensures forall i :: mid <= i < |a| ==> Below(key, a[i])
  {
    forall i | mid < i < |a| && a[mid] != a[i]
      ensures Below(key, a[i])
    {
      BelowTransitive(key, a[mid], a[i]);
    }
  }

  /** `Arrays.binarySearch` finds exactly the keys of a sorted list. */
  lemma BinarySearchSorted(a: seq<string>, key: string)
    requires Sorted(a)
    ensures BinarySearch(a, key) >= 0 <==> key in a
  {
    SearchBetweenSorted(a, key, 0, |a| - 1);
  }

  // ---------------------------------------------------------------------
  // The signed date header

  const AuthorizationMissing := Failure("RuntimeException", Some("Authorization missing"))
  const SignedHeadersMissing := Failure("RuntimeException", Some("SignedHeaders missing"))

  function DateHeaderMissing(signedHeaders: string): Failure
  {
    Failure("RuntimeException", Some("Date or X-SN-Date signed header name missing; available headers: " + signedHeaders))
  }

  /** Where the binary searches find the date header: "x-sn-date" first, then "date". */
  function DateHeaderIndex(names: seq<string>): (r: int)
    ensures r >= 0 ==> r < |names| && (names[r] == "x-sn-date" || names[r] == "date")
  {
    var i := BinarySearch(names, "x-sn-date");
    if i >= 0 then i else BinarySearch(names, "date")
  }

  /**
   * The date header named by a signed header list: the list is split on
   * ';' and searched for "x-sn-date", then for "date".
   */
  function DateHeaderFor(signedHeaders: string): (r: Result<string>)
    ensures r.Err? ==> r == Err(DateHeaderMissing(signedHeaders))
    ensures r.Ok? ==> (r.value == SnDateHeader && "x-sn-date" in JavaSplit(signedHeaders, ';')) ||
                      (r.value == "Date" && "date" in JavaSplit(signedHeaders, ';'))
  {
    var names := JavaSplit(signedHeaders, ';');
    var i := DateHeaderIndex(names);
    if i < 0 then Err(DateHeaderMissing(signedHeaders))
    else if names[i] == "date" then Ok("Date")
    else Ok(SnDateHeader)
  }

  /**
   * `signedDateHeaderName(authorization)`: the header the request date
   * goes in, named after the date header the caller signed: "Date" for
   * "date", `X-SN-Date` for "x-sn-date".
   */
  function SignedDateHeaderName(authorization: Option<string>): (r: Result<string>)
    ensures authorization.None? ==> r == Err(AuthorizationMissing)
    ensures authorization.Some? && Find(SignedHeaders, authorization.value).None? ==> r == Err(SignedHeadersMissing)
    ensures authorization.Some? && Find(SignedHeaders, authorization.value).Some? ==>
              r == DateHeaderFor(Find(SignedHeaders, authorization.value).value)
    ensures r.Ok? ==> r.value == "Date" || r.value == SnDateHeader
  {
    if authorization.None? then Err(AuthorizationMissing)
    else
      var group := Find(SignedHeaders, authorization.value);
      if group.None? then Err(SignedHeadersMissing)
      else DateHeaderFor(group.value)
  }

  /** A signed header list as SNWS2 signing produces it: sorted names, none containing ';', the last not empty. */
  predicate SortedHeaderNames(names: seq<string>)
  {
    |names| >= 1 && names[|names| - 1] != "" && Sorted(names) &&
    forall i :: 0 <= i < |names| ==> ';' !in names[i]
  }

  /**
   * For a header list in sorted order, as SNWS2 signing produces it, a
   * signed "x-sn-date" wins, then "date", and without either the error
   * lists the signed headers.
   */
  lemma DateHeaderForSorted(names: seq<string>)
    requires SortedHeaderNames(names)
    ensures DateHeaderFor(Join(names, ';')) ==
              if "x-sn-date" in names then Ok(SnDateHeader)
              else if "date" in names then Ok("Date")
              else Err(DateHeaderMissing(Join(names, ';')))
  {
    JavaSplitJoin(names, ';');
    BinarySearchSorted(names, "x-sn-date");
    BinarySearchSorted(names, "date");
  }

  /**
   * The same, read from an authorization header whose signed header list
   * is such a list (as `Snws2SignedHeaders` shows an SNWS2 header's is).
   */
  lemma SignedDateHeaderNameSorted(authorization: string, names: seq<string>)
    requires SortedHeaderNames(names)
    requires Find(SignedHeaders, authorization) == Some(Join(names, ';'))
    ensures SignedDateHeaderName(Some(authorization)) ==
              if "x-sn-date" in names then Ok(SnDateHeader)
              else if "date" in names then Ok("Date")
              else Err(DateHeaderMissing(Join(names, ';')))
  {
    DateHeaderForSorted(names);
  }

  /**
   * An unsorted list can hide a signed "x-sn-date" from the search:
   * for "x-sn-date;date;host" the first probe lands on "date", the search
   * moves right, and "date" is then chosen.
   */
  lemma UnsortedHeadersMissXSnDate()
    ensures DateHeaderFor(Join(["x-sn-date", "date", "host"], ';')) == Ok("Date")
  {
    var names := ["x-sn-date", "date", "host"];
    JavaSplitJoin(names, ';');
    assert Below("date", "x-sn-date");
    assert Below("host", "x-sn-date");
    assert SearchBetween(names, "x-sn-date", 0, 2) == SearchBetween(names, "x-sn-date", 2, 2);
    assert BinarySearch(names, "x-sn-date") < 0;
    BelowIrreflexive("date");
    assert BinarySearch(names, "date") == 1;
    assert DateHeaderIndex(names) == 1;
  }

  // ---------------------------------------------------------------------
  // The request and its response

  /**
   * `get(uri, accept, headers)`'s verdict on an HTTP response: 401 and 403
   * are authentication failures; any other status outside 200..299 is an
   * I/O error naming the status and the reason phrase.
   */
  function StatusFailure(status: int, reason: Option<string>): (r: Option<Failure>)
    ensures r.None? <==> 200 <= status <= 299
    ensures r.Some? && r.value.className == "AuthorizationException" <==> status == 401 || status == 403
  {
    if status == 401 || status == 403 then Some(Failure("AuthorizationException", Some("Authentication failure")))
    else if status < 200 || status > 299 then
      Some(Failure("IOException", Some("HTTP result status not in the 200-299 range: " + IntToString(status) + " " +
                                       (if reason.Some? then reason.value else "null"))))
    else None
  }

  /**
   * The `whoami` reply: JSON that cannot be parsed (Jackson's exception is
   * an IOException, whose text is not modelled), a reply whose `data`
   * member is not an object, or one whose `data` object reads as a map
   * of strings.
   */
  datatype Reply = Unreadable | NoData | Data(details: map<string, string>)

  /** The response: whether the connection is HTTP, its status and reason phrase, and the reply body. */
  datatype Response = Response(isHttp: bool, status: int, reason: Option<string>, reply: Reply)

  /** The request headers: Host, the signed date header, Authorization. */
  datatype Request = Request(host: Option<string>, dateHeader: string, date: string, authorization: string)

  /** The outcome of `authorize`: the request sent (if one was) and the details returned, or the failure. */
  datatype Authorized = Authorized(request: Request, details: map<string, string>)

  /**
   * `authorize(authorization, date)`: the date header name is derived
   * before anything is sent; the `whoami` response is then classified;
   * an I/O error is rethrown wrapped in a RuntimeException, whose message
   * is the cause's `toString()`; a reply without a `data` object yields
   * an empty map.
   */
  function Authorize(apiHost: Option<string>, apiPort: int, authorization: Option<string>, date: string,
                     response: Response): (r: Result<Authorized>)
    ensures SignedDateHeaderName(authorization).Err? ==> r == Err(SignedDateHeaderName(authorization).error)
    ensures r.Ok? ==> SignedDateHeaderName(authorization).Ok? && authorization.Some? &&
                      r.value.request == Request(UriHost(apiHost, apiPort), SignedDateHeaderName(authorization).value,
                                                 date, authorization.value)
    ensures r.Ok? ==> !response.isHttp || 200 <= response.status <= 299
    ensures SignedDateHeaderName(authorization).Ok? && response.isHttp && (response.status == 401 || response.status == 403) ==>
              r == Err(Failure("AuthorizationException", Some("Authentication failure")))
    ensures r.Ok? && response.reply.Data? ==> r.value.details == response.reply.details
    ensures r.Ok? && response.reply.NoData? ==> r.value.details == map[]
    ensures SignedDateHeaderName(authorization).Ok? && (!response.isHttp || 200 <= response.status <= 299) ==>
              (r.Ok? <==> !response.reply.Unreadable?)
    ensures SignedDateHeaderName(authorization).Ok? && response.isHttp && response.status !in {401, 403} &&
            !(200 <= response.status <= 299) ==>
              r == Err(WrappedIO(StatusFailure(response.status, response.reason).value.message))
  {
    match SignedDateHeaderName(authorization)
    case Err(e) => Err(e)
    case Ok(dateHeader) =>
      var request := Request(UriHost(apiHost, apiPort), dateHeader, date, authorization.value);
      var failure := if response.isHttp then StatusFailure(response.status, response.reason) else None;
      if failure.Some? then
        if failure.value.className == "IOException" then Err(WrappedIO(failure.value.message))
        else Err(failure.value)
      else
        match response.reply
        case Unreadable => Err(UnreadableReply)
        case NoData => Ok(Authorized(request, map[]))
        case Data(details) => Ok(Authorized(request, details))
  }

  /** A parse failure wrapped in a RuntimeException; the parser's exception text is not modelled. */
  const UnreadableReply := Failure("RuntimeException", None)

  /** `new RuntimeException(ioException)`: its message is "java.io.IOException" and the cause's message. */
  function WrappedIO(message: Option<string>): (f: Failure)
    ensures f.className == "RuntimeException" && f.message.Some?
    ensures StartsWith(f.message.value, "java.io.IOException")
  {
    Failure("RuntimeException", Some("java.io.IOException" + (if message.Some? then ": " + message.value else "")))
  }
}
