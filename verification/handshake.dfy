/** The connection helpers both gateways use while a socket connects
    (src/rooms/rooms.gateway.ts and src/socket/socket.gateway.ts): reading
    one cookie out of the `Cookie` header and sorting a user agent into a
    device class. */
module Handshake {
  import opened Common
  import opened Lobby

  // ------------------------------------------------------------------ cookies

  /** What `([^;]+)` takes when nothing follows it in the pattern: the
      longest prefix holding no ';'. */
  function UpToSemicolon(s: string): (r: string)
    ensures |r| <= |s| && r == s[..|r|]
    ensures ';' !in r
    ensures |r| < |s| ==> s[|r|] == ';'
  {
    if s != [] && s[0] != ';' then [s[0]] + UpToSemicolon(s[1..]) else []
  }

  /** The pattern `(^| )key=([^;]+)` can take `key=` at `p`: `p` opens the
      header or follows a space, and a character other than ';' follows
      the '='. */
  predicate CookieAt(s: string, key: string, p: nat) {
    && (p == 0 || (p <= |s| && s[p - 1] == ' '))
    && OccursAt(s, key + "=", p)
    && p + |key| + 1 < |s| && s[p + |key| + 1] != ';'
  }

  /** The second capture group for the match at `p`. */
  function CookieValueAt(s: string, key: string, p: nat): string
    requires OccursAt(s, key + "=", p)
  {
    UpToSemicolon(s[p + |key| + 1..])
  }

  /** The leftmost match at or after `p`. A match opening with a space at
      `q` puts `key=` at `q + 1` and the one opening with `^` puts it at 0,
      so trying the places where `key=` would start, in increasing order, is
      trying the match positions in the order the regular expression does. */
  function SearchCookie(s: string, key: string, p: nat): (r: Option<string>)
    // the search finds nothing exactly when no place from `p` on matches
    ensures r.None? <==> forall q: nat :: p <= q ==> !CookieAt(s, key, q)
    decreases |s| - p
  {
    if p >= |s| then None
    else if CookieAt(s, key, p) then Some(CookieValueAt(s, key, p))
    else SearchCookie(s, key, p + 1)
  }

  /** What the search finds is the value at the first matching place from
      `p` on. */
  lemma {:induction false} SearchCookieSome(s: string, key: string, p: nat)
    ensures var r := SearchCookie(s, key, p);
      r.Some? ==> exists q: nat :: p <= q && CookieAt(s, key, q) && r.value == CookieValueAt(s, key, q)
                    && forall q': nat :: p <= q' < q ==> !CookieAt(s, key, q')
    decreases |s| - p
  {
    if p < |s| && !CookieAt(s, key, p) {
      SearchCookieSome(s, key, p + 1);
      var r := SearchCookie(s, key, p);
      if r.Some? {
        var q: nat :| p + 1 <= q && CookieAt(s, key, q) && r.value == CookieValueAt(s, key, q)
          && forall q': nat :: p + 1 <= q' < q ==> !CookieAt(s, key, q');
        assert forall q': nat :: p <= q' < q ==> !CookieAt(s, key, q');
      }
    }
  }

  /** `parseCookie`: the value of the first `key=` that opens the header or
      follows a space, up to the next ';'; `None` (the source's `null`) when
      there is no such place. */
  function ParseCookie(s: string, key: string): (r: Option<string>)
    ensures r.None? <==> forall p: nat :: !CookieAt(s, key, p)
    ensures r.Some? ==> r.value != [] && ';' !in r.value
    ensures r.Some? ==> exists p: nat :: CookieAt(s, key, p) && r.value == CookieValueAt(s, key, p)
                          && forall q: nat :: q < p ==> !CookieAt(s, key, q)
  {
    SearchCookieSome(s, key, 0);
    SearchCookie(s, key, 0)
  }

  /** One `name=value` pair of a `Cookie` header. */
  datatype Cookie = Cookie(name: string, value: string)

  /** The header a browser sends: the pairs joined with "; ". */
  function CookieHeader(cs: seq<Cookie>): string
    decreases |cs|
  {
    if cs == [] then ""
    else if |cs| == 1 then cs[0].name + "=" + cs[0].value
    else cs[0].name + "=" + cs[0].value + "; " + CookieHeader(cs[1..])
  }

  /** A cookie name as servers set it: no '=', ';' or space. */
  predicate PlainName(n: string) {
    forall i :: 0 <= i < |n| ==> n[i] != '=' && n[i] != ';' && n[i] != ' '
  }

  /** A non-empty cookie value with no ';' or space, as a token is. */
  predicate PlainValue(v: string) {
    v != [] && forall i :: 0 <= i < |v| ==> v[i] != ';' && v[i] != ' '
  }

  /** The value of the first pair named `key`. */
  function CookieNamed(cs: seq<Cookie>, key: string): (r: Option<string>)
    ensures r.None? <==> forall k :: 0 <= k < |cs| ==> cs[k].name != key
    ensures r.Some? ==> exists k :: 0 <= k < |cs| && cs[k].name == key && cs[k].value == r.value
  {
    match FindFirst(cs, (c: Cookie) => c.name == key)
    case None => None
    case Some(k) => Some(cs[k].value)
  }

  /** A plain name followed by '=' shows `key=` at its start exactly when
      it is the key. */
  lemma KeyAtPairStart(name: string, key: string, tail: string)
    requires PlainName(name) && PlainName(key)
    ensures OccursAt(name + "=" + tail, key + "=", 0) <==> name == key
  {
    var s := name + "=" + tail;
    if name == key {
      assert s[..|key| + 1] == key + "=";
    }
    var n := |name|;
    if |key| < n {
      assert s[|key|] == name[|key|] != '=' == (key + "=")[|key|];
    } else if |key| > n {
      assert s[n] == '=' != key[n] == (key + "=")[n];
    } else if OccursAt(s, key + "=", 0) {
      assert name == s[..n] == key;
    }
  }

  /** `([^;]+)` stops where the value stops. */
  lemma {:induction false} ValueUpToSemicolon(v: string, rest: string)
    requires forall i :: 0 <= i < |v| ==> v[i] != ';'
    requires rest == [] || rest[0] == ';'
    ensures UpToSemicolon(v + rest) == v
  {
    if v != [] {
      assert (v + rest)[1..] == v[1..] + rest;
      ValueUpToSemicolon(v[1..], rest);
    }
  }

  /** Reading a plain pair back out of its header. */
  lemma CookieAtPairStart(seg: Cookie, rest: string, key: string)
    requires PlainName(seg.name) && PlainValue(seg.value) && PlainName(key)
    requires rest == [] || rest[0] == ';'
    ensures var s := seg.name + "=" + seg.value + rest;
      && (CookieAt(s, key, 0) <==> seg.name == key)
      && (seg.name == key ==> CookieValueAt(s, key, 0) == seg.value)
      && forall p: nat :: 0 < p <= |seg.name| + 1 + |seg.value| ==> !CookieAt(s, key, p)
  {
    var s := seg.name + "=" + seg.value + rest;
    var n := |seg.name|;
    assert s == seg.name + "=" + (seg.value + rest);
    KeyAtPairStart(seg.name, key, seg.value + rest);
    if seg.name == key {
      assert s[n + 1] == seg.value[0];
      assert s[n + 1..] == seg.value + rest;
      ValueUpToSemicolon(seg.value, rest);
    }
    NoCookieInsidePair(seg, rest, key);
  }

  /** Inside a plain pair no character is a space, so no match opens there. */
  lemma NoCookieInsidePair(seg: Cookie, rest: string, key: string)
    requires PlainName(seg.name) && PlainValue(seg.value)
    ensures var s := seg.name + "=" + seg.value + rest;
      forall p: nat :: 0 < p <= |seg.name| + 1 + |seg.value| ==> !CookieAt(s, key, p)
  {
    var s := seg.name + "=" + seg.value + rest;
    var n := |seg.name|;
    forall p: nat | 0 < p <= n + 1 + |seg.value|
      ensures !CookieAt(s, key, p)
    {
      if p <= n {
        assert s[p - 1] == seg.name[p - 1];
      } else if p == n + 1 {
        assert s[p - 1] == '=';
      } else {
        assert s[p - 1] == seg.value[p - n - 2];
      }
    }
  }

  /** Past a prefix ending in a space, the header matches where its
      remainder does, with the same value. */
  lemma CookieAtShift(prefix: string, t: string, key: string, j: nat)
    requires prefix != [] && prefix[|prefix| - 1] == ' '
    ensures CookieAt(prefix + t, key, |prefix| + j) <==> CookieAt(t, key, j)
    ensures CookieAt(t, key, j) ==> CookieValueAt(prefix + t, key, |prefix| + j) == CookieValueAt(t, key, j)
  {
    var s := prefix + t;
    var p := |prefix| + j;
    if OccursAt(t, key + "=", j) {
      assert s[p..p + |key| + 1] == t[j..j + |key| + 1];
      assert s[p + |key| + 1..] == t[j + |key| + 1..];
    }
    if OccursAt(s, key + "=", p) {
      assert s[p..p + |key| + 1] == t[j..j + |key| + 1];
    }
    if 0 < j <= |t| {
      assert s[p - 1] == t[j - 1];
    }
  }

  /** The search passes over places where nothing matches. */
  lemma {:induction false} SearchSkips(s: string, key: string, p: nat, m: nat)
    requires p <= m <= |s|
    requires forall q: nat :: p <= q < m ==> !CookieAt(s, key, q)
    ensures SearchCookie(s, key, p) == SearchCookie(s, key, m)
    decreases m - p
  {
    if p < m {
      SearchSkips(s, key, p + 1, m);
    }
  }

  /** Past a prefix ending in a space, the search runs as on the remainder. */
  lemma {:induction false} SearchShift(prefix: string, t: string, key: string, j: nat)
    requires prefix != [] && prefix[|prefix| - 1] == ' '
    ensures SearchCookie(prefix + t, key, |prefix| + j) == SearchCookie(t, key, j)
    decreases |t| - j
  {
    if j < |t| {
      CookieAtShift(prefix, t, key, j);
      SearchShift(prefix, t, key, j + 1);
    }
  }

  /** A prefix ending in a space where nothing matches is skipped: the
      header reads as its remainder does. */
  lemma ParseSkipsPrefix(prefix: string, t: string, key: string)
    requires prefix != [] && prefix[|prefix| - 1] == ' '
    requires forall p: nat :: p < |prefix| ==> !CookieAt(prefix + t, key, p)
    ensures ParseCookie(prefix + t, key) == ParseCookie(t, key)
  {
    SearchSkips(prefix + t, key, 0, |prefix|);
    SearchShift(prefix, t, key, 0);
  }

  /** A header opening with the key's pair yields that pair's value. */
  lemma ParseFirstPair(c: Cookie, rest: string, key: string)
    requires PlainName(c.name) && PlainValue(c.value) && PlainName(key) && c.name == key
    requires rest == [] || rest[0] == ';'
    ensures ParseCookie(c.name + "=" + c.value + rest, key) == Some(c.value)
  {
    var s := c.name + "=" + c.value + rest;
    CookieAtPairStart(c, rest, key);
    var r := ParseCookie(s, key);
    var p: nat :| CookieAt(s, key, p) && r.value == CookieValueAt(s, key, p)
      && forall q: nat :: q < p ==> !CookieAt(s, key, q);
    assert p == 0;
  }

  /** `parseCookie` reads back what a browser sends: for plain names and
      values, the header built from the pairs yields the first pair with
      the key's name, and `null` when no pair has it. */
  lemma {:induction false} CookieRoundTrip(cs: seq<Cookie>, key: string)
    requires forall k :: 0 <= k < |cs| ==> PlainName(cs[k].name) && PlainValue(cs[k].value)
    requires PlainName(key)
    ensures ParseCookie(CookieHeader(cs), key) == CookieNamed(cs, key)
    decreases |cs|
  {
    var s := CookieHeader(cs);
    if cs == [] {
      assert forall p: nat :: !CookieAt(s, key, p);
    } else {
      var c := cs[0];
      var seg := c.name + "=" + c.value;
      var rest := if |cs| == 1 then "" else "; " + CookieHeader(cs[1..]);
      assert s == c.name + "=" + c.value + rest;
      if c.name == key {
        ParseFirstPair(c, rest, key);
      } else {
        CookieAtPairStart(c, rest, key);
        assert forall k :: 1 <= k < |cs| ==> cs[1..][k - 1] == cs[k];
        if |cs| == 1 {
          forall p: nat ensures !CookieAt(s, key, p) {
            if p > |seg| {
              assert !OccursAt(s, key + "=", p);
            }
          }
        } else {
          var t := CookieHeader(cs[1..]);
          var prefix := seg + "; ";
          assert s == prefix + t;
          forall p: nat | p < |prefix| ensures !CookieAt(s, key, p) {
            if p == |seg| + 1 {
              assert s[p - 1] == ';';
            }
          }
          ParseSkipsPrefix(prefix, t, key);
          CookieRoundTrip(cs[1..], key);
        }
      }
    }
  }

  /** The case the gateways' tests rely on: a header without the key. */
  lemma OtherCookieOnly()
    ensures ParseCookie("other=cookie", "accessToken") == None
  {
    var s := "other=cookie";
    forall p: nat ensures !CookieAt(s, "accessToken", p) {
      assert |"accessToken" + "="| == 12;
    }
  }

  // ------------------------------------------------------------- user agents

  predicate IsLineTerminator(c: char) {
    c == '\n' || c == '\r' || c == '\U{2028}' || c == '\U{2029}'
  }

  /** `(?!.*mobi)` fails at `i`: "mobi" follows later on the same line. */
  predicate MobiLater(s: string, i: nat) {
    exists q: nat :: i <= q && q + 4 <= |s| && OccursAt(s, "mobi", q) && forall k :: i <= k < q ==> !IsLineTerminator(s[k])
  }

  /** `android(?!.*mobi)`: some "android" has no "mobi" after it on its line. */
  predicate AndroidTablet(s: string) {
    exists p: nat :: p + 7 <= |s| && OccursAt(s, "android", p) && !MobiLater(s, p + 7)
  }

  /** `/(tablet|ipad|playbook|silk)|(android(?!.*mobi))/i` on a lowercased
      string; its words are lowercase, so ignoring case changes nothing. */
  predicate TabletAgent(s: string) {
    || Contains(s, "tablet") || Contains(s, "ipad") || Contains(s, "playbook") || Contains(s, "silk")
    || AndroidTablet(s)
  }

  /** The alternatives of the mobile pattern, as both gateways write them. */
  const MobilePatterns: seq<string> :=
    ["Mobile", "Android", "iPhone", "iPod", "IEMobile", "BlackBerry", "Kindle",
     "Silk-Accelerated", "hpwOS", "webOS", "Opera Mobi", "Opera Mini"]

  /** A regular expression made of the literal `pat` finds a match in `s`,
      with or without the `i` flag. */
  predicate Matches(s: string, pat: string, ignoreCase: bool) {
    if ignoreCase then Contains(Lower(s), Lower(pat)) else Contains(s, pat)
  }

  predicate MobileAgent(s: string, ignoreCase: bool) {
    exists k :: 0 <= k < |MobilePatterns| && Matches(s, MobilePatterns[k], ignoreCase)
  }

  /** `getDeviceType`: the agent is lowercased, the tablet test runs first,
      then the mobile test, and anything else is a desktop. The two gateways
      differ only in the `i` flag of the mobile test. */
  function DeviceTypeOf(userAgent: string, ignoreCase: bool): (d: DeviceType)
    ensures d == Tablet <==> TabletAgent(Lower(userAgent))
    ensures d == Mobile <==> !TabletAgent(Lower(userAgent)) && MobileAgent(Lower(userAgent), ignoreCase)
  {
    var ua := Lower(userAgent);
    if TabletAgent(ua) then Tablet
    else if MobileAgent(ua, ignoreCase) then Mobile
    else Desktop
  }

  /** `getDeviceType` of src/rooms/rooms.gateway.ts, whose mobile test is
      case-sensitive. */
  function RoomsDeviceType(userAgent: string): (d: DeviceType)
    ensures d == Tablet <==> TabletAgent(Lower(userAgent))
    ensures d == Mobile <==> !TabletAgent(Lower(userAgent)) && MobileAgent(Lower(userAgent), false)
  {
    DeviceTypeOf(userAgent, false)
  }

  /** `getDeviceType` of src/socket/socket.gateway.ts, whose mobile test
      ignores case. */
  function SocketDeviceType(userAgent: string): (d: DeviceType)
    ensures d == Tablet <==> TabletAgent(Lower(userAgent))
    ensures d == Mobile <==> !TabletAgent(Lower(userAgent)) && MobileAgent(Lower(userAgent), true)
  {
    DeviceTypeOf(userAgent, true)
  }

  lemma LowerTwice(s: string)
    ensures Lower(Lower(s)) == Lower(s)
  {
  }

  /** A lowercased string holds no pattern with an uppercase letter. */
  lemma LowerHoldsNoUpper(s: string, pat: string, j: nat)
    requires j < |pat| && IsUpper(pat[j])
    ensures !Contains(Lower(s), pat)
  {
  }

  /** Every alternative of the mobile pattern holds an uppercase letter, and
      the agent it is tested against is lowercased: without the `i` flag
      the test never succeeds, so the rooms gateway never answers mobile. */
  lemma RoomsNeverMobile(userAgent: string)
    ensures RoomsDeviceType(userAgent) != Mobile
  {
    var ua := Lower(userAgent);
    forall k | 0 <= k < |MobilePatterns| ensures !Contains(ua, MobilePatterns[k]) {
      var j := if k == 2 || k == 3 then 1 else if k == 8 || k == 9 then 3 else 0;
      assert IsUpper(MobilePatterns[k][j]);
      LowerHoldsNoUpper(userAgent, MobilePatterns[k], j);
    }
    LowerTwice(userAgent);
  }

  /** With the `i` flag, an agent holding one of the mobile words and no
      tablet sign is a mobile for the socket gateway, and a desktop for the
      rooms gateway. */
  lemma MobileWordSplitsGateways(userAgent: string, k: nat)
    requires k < |MobilePatterns|
    requires !TabletAgent(Lower(userAgent))
    requires Contains(Lower(userAgent), Lower(MobilePatterns[k]))
    ensures SocketDeviceType(userAgent) == Mobile
    ensures RoomsDeviceType(userAgent) == Desktop
  {
    LowerTwice(userAgent);
    assert Matches(Lower(userAgent), MobilePatterns[k], true);
    RoomsNeverMobile(userAgent);
  }

  /** `s` lacks the letter `c` in either case, so no lowercase word holding
      `c` occurs in `Lower(s)`. */
  lemma MissingLetter(s: string, pat: string, c: char, j: nat)
    requires 'a' <= c <= 'z' && j < |pat| && pat[j] == c
    requires forall i :: 0 <= i < |s| ==> s[i] != c && s[i] != UpperChar(c)
    ensures !Contains(Lower(s), pat)
  {
  }

  /** The agent "iPhone" is a mobile for the socket gateway and a desktop
      for the rooms gateway. */
  lemma IPhoneAgent()
    ensures SocketDeviceType("iPhone") == Mobile
    ensures RoomsDeviceType("iPhone") == Desktop
  {
    var s := "iPhone";
    var ua := Lower(s);
    MissingLetter(s, "tablet", 't', 0);
    MissingLetter(s, "ipad", 'a', 2);
    MissingLetter(s, "playbook", 'a', 2);
    MissingLetter(s, "silk", 's', 0);
    MissingLetter(s, "android", 'a', 0);
    assert !AndroidTablet(ua) by {
      assert forall p: nat :: !OccursAt(ua, "android", p);
    }
    assert ua == "iphone";
    assert Lower(MobilePatterns[2]) == "iphone";
    assert OccursAt(ua, Lower(MobilePatterns[2]), 0);
    MobileWordSplitsGateways(s, 2);
  }

  /** Every tablet and mobile word holds one of the letters b, d, k, p or
      w, so an agent with none of them in either case, such as
      "Mozilla/5.0 (Macintosh; Intel Mac OS X 10_15_7)", is a desktop for
      both gateways. */
  lemma AgentWithoutMarkersIsDesktop(userAgent: string)
    requires forall i :: 0 <= i < |userAgent| ==> userAgent[i] !in {'b', 'B', 'd', 'D', 'k', 'K', 'p', 'P', 'w', 'W'}
    ensures SocketDeviceType(userAgent) == Desktop && RoomsDeviceType(userAgent) == Desktop
  {
    var s := userAgent;
    var ua := Lower(s);
    MissingLetter(s, "tablet", 'b', 2);
    MissingLetter(s, "ipad", 'p', 1);
    MissingLetter(s, "playbook", 'p', 0);
    MissingLetter(s, "silk", 'k', 3);
    MissingLetter(s, "android", 'd', 2);
    assert !AndroidTablet(ua);
    LowerTwice(s);
    forall k | 0 <= k < |MobilePatterns| ensures !Contains(Lower(ua), Lower(MobilePatterns[k])) {
      // a letter missing from the agent, and where the lowercased
      // alternative holds it
      var missing: seq<(char, nat)> := [('b', 2), ('d', 2), ('p', 1), ('p', 1), ('b', 4), ('b', 0),
                                        ('k', 0), ('k', 3), ('p', 1), ('w', 0), ('p', 1), ('p', 1)];
      var (c, j) := missing[k];
      assert Lower(MobilePatterns[k])[j] == c;
      MissingLetter(s, Lower(MobilePatterns[k]), c, j);
    }
    RoomsNeverMobile(s);
  }

  /** The tablet test runs first: an agent holding "silk-accelerated" is a
      tablet for both gateways although the word is also a mobile one. */
  lemma SilkAcceleratedIsTablet(userAgent: string)
    requires Contains(Lower(userAgent), "silk-accelerated")
    ensures RoomsDeviceType(userAgent) == Tablet && SocketDeviceType(userAgent) == Tablet
  {
    var ua := Lower(userAgent);
    var i: nat :| i + 16 <= |ua| && OccursAt(ua, "silk-accelerated", i);
    assert ua[i..i + 4] == ua[i..i + 16][..4] == "silk";
    assert OccursAt(ua, "silk", i);
  }

  /** An Android agent with "mobi" later on the line of every "android", and
      no other tablet word, skips the tablet branch and is a mobile for the
      socket gateway. */
  lemma AndroidPhoneIsMobile(userAgent: string)
    requires Contains(Lower(userAgent), "android")
    requires forall p: nat :: OccursAt(Lower(userAgent), "android", p) ==> MobiLater(Lower(userAgent), p + 7)
    requires !Contains(Lower(userAgent), "tablet") && !Contains(Lower(userAgent), "ipad")
    requires !Contains(Lower(userAgent), "playbook") && !Contains(Lower(userAgent), "silk")
    ensures SocketDeviceType(userAgent) == Mobile
  {
    assert Lower(MobilePatterns[1]) == "android";
    LowerTwice(userAgent);
    assert Matches(Lower(userAgent), MobilePatterns[1], true);
  }
}
