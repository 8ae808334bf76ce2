/** The image pilot: which URLs are accepted, what is fetched for them, and under which alias the
    bytes are stored when preloading and looked up when reading. */
module Pilot {
  import opened Model
  import opened RegistrySpec
  import opened Paths

  const HOST := "gallica.bnf.fr"
  const V3_HOST := "openapi.bnf.fr"
  const PARTITION := "gallica-pilot"

  /** An accepted host and its decoded path. */
  datatype Target = Target(host: string, path: string)

  // ---------------------------------------------------------------- accepted paths

  predicate Digit(c: char) { '0' <= c <= '9' }

  predicate Alnum(c: char) { Digit(c) || 'a' <= c <= 'z' || 'A' <= c <= 'Z' }

  /** Every character an accepted path can contain. */
  predicate PathChar(c: char) { Alnum(c) || c == ':' || c == '.' || c == ',' || c == '!' || c == '/' }

  predicate Plain(s: string) { forall c <- s :: PathChar(c) }

  predicate Digits(s: string) { forall c <- s :: Digit(c) }

  predicate Name(s: string) { s != "" && forall c <- s :: Alnum(c) }

  predicate PageNumber(s: string) {
    |s| >= 2 && s[0] == 'f' && '1' <= s[1] <= '9' && Digits(s[2..])
  }

  ghost predicate Number(s: string) {
    (s != "" && Digits(s))
    || exists i | 0 < i < |s| - 1 :: s[i] == '.' && Digits(s[..i]) && Digits(s[i + 1..])
  }

  ghost predicate Box(s: string) {
    exists a, b, c, d :: Number(a) && Number(b) && Number(c) && Number(d) && s == a + "," + b + "," + c + "," + d
  }

  ghost predicate Region(s: string) {
    s == "full" || s == "square" || Box(s) || ("pct:" <= s && Box(s[4..]))
  }

  ghost predicate Extent(s: string) {
    exists w, h :: Digits(w) && Digits(h) && (w != "" || h != "") && s == w + "," + h
  }

  ghost predicate SizeSegment(s: string) {
    s == "full" || s == "max" || ("pct:" <= s && Number(s[4..])) || Extent(s) || ("!" <= s && Extent(s[1..]))
  }

  ghost predicate Rotation(s: string) {
    Number(s) || ("!" <= s && Number(s[1..]))
  }

  predicate FileName(s: string, webp: bool) {
    exists q <- ["native", "default", "color", "gray", "bitonal"], e <- ["jpg", "jpeg", "tif", "tiff", "webp"] ::
      s == q + "." + e && (e == "webp" ==> webp)
  }

  ghost predicate Rendition(s: seq<string>, webp: bool) {
    |s| == 6 && Name(s[0]) && PageNumber(s[1]) && Region(s[2]) && SizeSegment(s[3]) && Rotation(s[4])
      && FileName(s[5], webp)
  }

  const LEGACY_FRONT := ["", "iiif", "ark:", "12148"]
  const V3_FRONT := ["", "iiif", "image", "v3", "ark:", "12148"]

  /** The image paths each host may serve. */
  ghost predicate Accepted(host: string, path: string) {
    var s := Split(path);
    (host == HOST && |s| == 10 && s[..4] == LEGACY_FRONT && Rendition(s[4..], false))
    || (host == V3_HOST && |s| == 12 && s[..6] == V3_FRONT && Rendition(s[6..], true))
  }

  // ---------------------------------------------------------------- what is fetched and where it is kept

  function Url(t: Target): string { "https://" + t.host + t.path }

  function LegacyFull(name: string, page: string): seq<string> {
    LEGACY_FRONT + [name, page, "full", "full", "0", "native.jpg"]
  }

  function V3Full(name: string, page: string): seq<string> {
    V3_FRONT + [name, page, "full", "max", "0", "default.jpg"]
  }

  predicate IsLegacyFull(t: Target) {
    var s := Split(t.path);
    t.host == HOST && |s| == 10 && Name(s[4]) && PageNumber(s[5]) && s == LegacyFull(s[4], s[5])
  }

  /** The full legacy image is fetched from the current endpoint. */
  function FetchTarget(t: Target): Target {
    if IsLegacyFull(t) then Target(V3_HOST, Join(V3Full(Split(t.path)[4], Split(t.path)[5]))) else t
  }

  function RelativeAlias(t: Target): string {
    if Url(FetchTarget(t)) != Url(t) then PARTITION + "/" + V3_HOST + "/" + TrimLeft(FetchTarget(t).path, IsSlash)
    else PARTITION + "/" + (if t.host == HOST then "" else t.host + "/") + TrimLeft(t.path, IsSlash)
  }

  // ---------------------------------------------------------------- parsing a URL

  function LowerChar(c: char): char {
    if 'A' <= c <= 'Z' then (c as int + 32) as char else c
  }

  function Lower(s: string): (r: string)
    ensures |r| == |s| && forall i | 0 <= i < |s| :: r[i] == LowerChar(s[i])
  {
    seq(|s|, i requires 0 <= i < |s| => LowerChar(s[i]))
  }

  predicate Hex(c: char) { Digit(c) || 'a' <= c <= 'f' || 'A' <= c <= 'F' }

  function HexValue(c: char): nat
    requires Hex(c)
    ensures HexValue(c) < 16
  {
    if Digit(c) then c as int - '0' as int else if 'a' <= c <= 'f' then c as int - 'a' as int + 10
      else c as int - 'A' as int + 10
  }

  predicate Escape(s: string) { |s| >= 3 && s[0] == '%' && Hex(s[1]) && Hex(s[2]) }

  function Decoded(s: string): char
    requires Escape(s)
  {
    (16 * HexValue(s[1]) + HexValue(s[2])) as char
  }

  /** Percent-decoding, one pass, leaving malformed escapes alone. */
  function Unquote(s: string): string {
    if s == "" then ""
    else if Escape(s) then [Decoded(s)] + Unquote(s[3..])
    else [s[0]] + Unquote(s[1..])
  }

  /** Every percent sign begins an escape, and none hides a delimiter or another percent sign. */
  predicate Unambiguous(s: string) {
    forall i | 0 <= i < |s| && s[i] == '%' :: Escape(s[i..]) && Decoded(s[i..]) !in "/\\%?#"
  }

  predicate Printable(s: string) {
    forall c <- s :: 33 <= c as int <= 126
  }

  datatype Split3 = NoUrl | Split3(host: string, path: string)

  /** Host and path of an https URL without query or fragment. */
  function SplitHttps(raw: string): Split3 {
    if |raw| < 8 || Lower(raw[..8]) != "https://" then NoUrl
    else
      var rest := raw[8..];
      FirstSegmentIsPrefix(rest);
      Split3(Lower(FirstSegment(rest)), rest[|FirstSegment(rest)|..])
  }

  /** The policy's judgement of a URL, with the path decoded exactly once. */
  ghost function Require(raw: string): Option<Target> {
    if raw == "" || |raw| > 2048 || !Printable(raw) || '?' in raw || '#' in raw then None
    else
      var u := SplitHttps(raw);
      if u.NoUrl? || !Unambiguous(u.path) then None
      else if !Accepted(u.host, Unquote(u.path)) then None
      else Some(Target(u.host, Unquote(u.path)))
  }

  /** Reads come as a path naming the host first. */
  ghost function RequireRead(path: string, query: string): Option<Target> {
    if query != "" || !("/" + HOST + "/" <= path || "/" + V3_HOST + "/" <= path) then None
      else Require("https:/" + path)
  }

  /** The fetcher's own normalization of an https URL without port, user, query or fragment. */
  function NormalizeUrl(raw: string): Option<string> {
    var u := SplitHttps(Trim(raw, IsSpaceChar));
    if u.NoUrl? || u.host == "" then None
    else
      var path := if Unquote(u.path) == "" then "/" else Unquote(u.path);
      Some("https://" + u.host + if |path| > 1 && path[|path| - 1] == '/' then TrimRight(path, IsSlash) else path)
  }

  // ---------------------------------------------------------------- preload

  /** The alias the preloaded bytes go to: policy, fetch mapping, normalization, then the policy again as a
      cache rule whose alias is put back under the partition. */
  ghost function PreloadAlias(raw: string): Option<string> {
    var t := Require(raw);
    if t.None? then None
    else
      var url := NormalizeUrl(Url(FetchTarget(t.value)));
      if url.None? then None
      else
        var again := Require(url.value);
        if again.None? then None
        else
          var alias := RelativeAlias(again.value);
          Some(PARTITION + "/" + if PARTITION + "/" <= alias then alias[|PARTITION| + 1..] else alias)
  }

  // ---------------------------------------------------------------- decoding

  lemma {:induction false} DecodedHasNoPercent(s: string)
    requires Unambiguous(s)
    ensures '%' !in Unquote(s)
  {
    if s != "" {
      assert s[0..] == s;
      if Escape(s) {
        assert Decoded(s) in [Decoded(s)] && Decoded(s) !in "/\\%?#" && Decoded(s) != '%';
        UnambiguousRest(s, 3);
        DecodedHasNoPercent(s[3..]);
      } else {
        UnambiguousRest(s, 1);
        DecodedHasNoPercent(s[1..]);
      }
    }
  }

  lemma UnambiguousRest(s: string, n: nat)
    requires Unambiguous(s) && n <= |s|
    ensures Unambiguous(s[n..])
  {
    forall i | 0 <= i < |s| - n && s[n..][i] == '%' ensures Escape(s[n..][i..]) && Decoded(s[n..][i..]) !in "/\\%?#" {
      assert s[n..][i..] == s[n + i..];
    }
  }

  lemma {:induction false} UnquotePlain(s: string)
    requires '%' !in s
    ensures Unquote(s) == s
  {
    if s != "" {
      UnquotePlain(s[1..]);
      assert s == [s[0]] + s[1..];
    }
  }

  /** Decoding twice is decoding once, on every path that passes the policy's check. */
  lemma {:induction false} SecondDecodeIsIdentity(s: string)
    requires Unambiguous(s)
    ensures Unquote(Unquote(s)) == Unquote(s)
  {
    DecodedHasNoPercent(s);
    UnquotePlain(Unquote(s));
  }

  lemma {:induction false} UnquoteIsNoLonger(s: string)
    ensures |Unquote(s)| <= |s|
  {
    if s != "" {
      if Escape(s) { UnquoteIsNoLonger(s[3..]); } else { UnquoteIsNoLonger(s[1..]); }
    }
  }

  // ---------------------------------------------------------------- accepted paths are plain

  lemma NumberIsPlain(s: string)
    requires Number(s)
    ensures Plain(s)
  {
    if !(s != "" && Digits(s)) {
      var i :| 0 < i < |s| - 1 && s[i] == '.' && Digits(s[..i]) && Digits(s[i + 1..]);
      assert s == s[..i] + "." + s[i + 1..];
    }
  }

  lemma BoxIsPlain(s: string)
    requires Box(s)
    ensures Plain(s)
  {
    var a, b, c, d :| Number(a) && Number(b) && Number(c) && Number(d) && s == a + "," + b + "," + c + "," + d;
    NumberIsPlain(a);
    NumberIsPlain(b);
    NumberIsPlain(c);
    NumberIsPlain(d);
  }

  lemma PrefixedIsPlain(prefix: string, s: string)
    requires Plain(prefix) && prefix <= s && Plain(s[|prefix|..])
    ensures Plain(s)
  {
    assert s == prefix + s[|prefix|..];
  }

  lemma SegmentsArePlain(s: seq<string>, webp: bool)
    requires Rendition(s, webp)
    ensures forall i | 0 <= i < 6 :: Plain(s[i])
  {
    assert s[1] == ['f'] + s[1][1..] && s[1][1..] == [s[1][1]] + s[1][2..];
    RegionIsPlain(s[2]);
    SizeIsPlain(s[3]);
    if Number(s[4]) { NumberIsPlain(s[4]); } else {
      NumberIsPlain(s[4][1..]);
      PrefixedIsPlain("!", s[4]);
    }
  }

  lemma RegionIsPlain(s: string)
    requires Region(s)
    ensures Plain(s)
  {
    if Box(s) {
      BoxIsPlain(s);
    } else if s != "full" && s != "square" {
      BoxIsPlain(s[4..]);
      PrefixedIsPlain("pct:", s);
    }
  }

  lemma SizeIsPlain(s: string)
    requires SizeSegment(s)
    ensures Plain(s)
  {
    if "pct:" <= s && Number(s[4..]) {
      NumberIsPlain(s[4..]);
      PrefixedIsPlain("pct:", s);
    } else if !Extent(s) && s != "full" && s != "max" {
      PrefixedIsPlain("!", s);
    }
  }

  lemma {:induction false} JoinIsPlain(parts: seq<string>)
    requires |parts| >= 1 && forall i | 0 <= i < |parts| :: Plain(parts[i])
    ensures Plain(Join(parts))
  {
    if |parts| > 1 { JoinIsPlain(parts[1..]); }
  }

  /** An accepted path has only plain characters, begins with one slash and does not end with one. */
  lemma AcceptedIsPlain(host: string, path: string)
    requires Accepted(host, path)
    ensures Plain(path) && |path| > 2 && path[0] == '/' && path[1] == 'i' && path[|path| - 1] != '/'
  {
    var s := Split(path);
    var n := if host == HOST then 4 else 6;
    SegmentsArePlain(s[n..], host == V3_HOST);
    forall i | 0 <= i < |s| ensures Plain(s[i]) {
      if i < n {
        assert s[i] == s[..n][i];
        assert s[i] in ["", "iiif", "ark:", "12148", "image", "v3"];
      } else {
        assert s[i] == s[n..][i - n];
      }
    }
    assert s[0] == s[..n][0] == "" && s[1] == s[..n][1] == "iiif";
    assert s[|s| - 1] == s[n..][5] && s[|s| - 1] != "";
    hide Rendition, Accepted;
    JoinSplit(path);
    JoinIsPlain(s);
    assert path == "" + "/" + Join(s[1..]);
    assert Join(s[1..]) == "iiif" + "/" + Join(s[1..][1..]);
    EndSlashes(path);
  }

  // ---------------------------------------------------------------- an accepted URL is its own normal form

  predicate HostName(s: string) { forall c <- s :: 'a' <= c <= 'z' || c == '.' }

  lemma Hosts(host: string)
    requires host == HOST || host == V3_HOST
    ensures |host| == 14 && HostName(host)
    ensures host == HOST ==> host[0] == 'g'
    ensures host == V3_HOST ==> host[0] == 'o'
  {
  }

  lemma LowerKeeps(s: string)
    requires forall c <- s :: !('A' <= c <= 'Z')
    ensures Lower(s) == s
  {
    assert forall i | 0 <= i < |s| :: s[i] in s;
  }

  lemma SplitOfUrl(t: Target)
    requires (t.host == HOST || t.host == V3_HOST) && t.path != "" && t.path[0] == '/'
    ensures SplitHttps(Url(t)) == Split3(t.host, t.path)
  {
    var raw := Url(t);
    Hosts(t.host);
    assert raw[..8] == "https://" && raw[8..] == t.host + t.path;
    LowerKeeps("https://");
    LowerKeeps(t.host);
    FirstSegmentOf(t.host, t.path);
  }

  lemma PlainUrl(t: Target)
    requires HostName(t.host) && Plain(t.path)
    ensures Printable(Url(t)) && '?' !in Url(t) && '#' !in Url(t) && '%' !in t.path
    ensures forall c <- Url(t) :: !IsSpaceChar(c)
  {
    forall c <- Url(t) ensures 33 <= c as int <= 126 && c != '?' && c != '#' {
      assert c in "https://" || c in t.host || c in t.path;
    }
  }

  /** What the policy accepts it accepts again, unless the mapped URL has grown too long. */
  lemma RequireAgain(t: Target)
    requires Accepted(t.host, t.path)
    ensures Require(Url(t)) == if |Url(t)| <= 2048 then Some(t) else None
  {
    AcceptedIsPlain(t.host, t.path);
    Hosts(t.host);
    PlainUrl(t);
    SplitOfUrl(t);
    UnquotePlain(t.path);
    assert Unambiguous(t.path);
    hide Accepted, SplitHttps, Printable, Plain, Url;
  }

  lemma NormalizeKeeps(t: Target)
    requires Accepted(t.host, t.path)
    ensures NormalizeUrl(Url(t)) == Some(Url(t))
  {
    AcceptedIsPlain(t.host, t.path);
    Hosts(t.host);
    PlainUrl(t);
    SplitOfUrl(t);
    UnquotePlain(t.path);
    hide Accepted, Plain, HostName, SplitHttps, Unquote;
    var raw := Url(t);
    NotTrimmed(raw);
    hide Trim;
  }

  lemma NotTrimmed(s: string)
    requires s != "" && forall c <- s :: !IsSpaceChar(c)
    ensures Trim(s, IsSpaceChar) == s
  {
    assert s[0] in s && s[|s| - 1] in s;
    TrimKeeps(s, IsSpaceChar);
  }

  // ---------------------------------------------------------------- the fetch mapping

  lemma PartsOfV3(name: string, page: string)
    requires Name(name) && PageNumber(page)
    ensures Split(Join(V3Full(name, page))) == V3Full(name, page)
  {
    assert '/' !in page by { assert page == ['f'] + [page[1]] + page[2..]; }
    SplitJoin(V3Full(name, page));
  }

  lemma FullRendition(name: string, page: string)
    requires Name(name) && PageNumber(page)
    ensures Rendition([name, page, "full", "max", "0", "default.jpg"], true)
  {
    assert Number("0");
    assert "default.jpg" == "default" + "." + "jpg" && "default" in ["native", "default", "color", "gray", "bitonal"]
           && "jpg" in ["jpg", "jpeg", "tif", "tiff", "webp"];
  }

  /** The mapped URL is accepted and not mapped any further. */
  lemma FetchIsAccepted(t: Target)
    requires Accepted(t.host, t.path)
    ensures Accepted(FetchTarget(t).host, FetchTarget(t).path)
    ensures FetchTarget(FetchTarget(t)) == FetchTarget(t)
    ensures IsLegacyFull(t) ==> |Url(FetchTarget(t))| == |Url(t)| + 9
  {
    if IsLegacyFull(t) {
      var name, page := Split(t.path)[4], Split(t.path)[5];
      PartsOfV3(name, page);
      FullRendition(name, page);
      var s := V3Full(name, page);
      assert s[..6] == V3_FRONT && s[6..] == [name, page, "full", "max", "0", "default.jpg"];
      JoinSplit(t.path);
      LegacyLength(name, page);
      hide Rendition;
    }
  }

  lemma {:induction false} JoinLength(parts: seq<string>)
    requires |parts| >= 1
    ensures |Join(parts)| == Lengths(parts) + |parts| - 1
  {
    if |parts| > 1 { JoinLength(parts[1..]); }
  }

  function Lengths(parts: seq<string>): nat {
    if parts == [] then 0 else |parts[0]| + Lengths(parts[1..])
  }

  lemma {:induction false} LengthsConcat(a: seq<string>, b: seq<string>)
    ensures Lengths(a + b) == Lengths(a) + Lengths(b)
  {
    if a == [] {
      assert a + b == b;
    } else {
      LengthsConcat(a[1..], b);
      assert (a + b)[1..] == a[1..] + b;
    }
  }

  lemma LegacyLength(name: string, page: string)
    ensures |Join(V3Full(name, page))| == |Join(LegacyFull(name, page))| + 9
  {
    JoinLength(V3Full(name, page));
    JoinLength(LegacyFull(name, page));
    var old_, new_ := [name, page, "full", "full", "0", "native.jpg"], [name, page, "full", "max", "0", "default.jpg"];
    LengthsConcat(LEGACY_FRONT, old_);
    LengthsConcat(V3_FRONT, new_);
    assert Lengths(LEGACY_FRONT) == 13 && Lengths(V3_FRONT) == 20 by {
      assert LEGACY_FRONT[1..] == ["iiif", "ark:", "12148"]
             && V3_FRONT[1..] == ["iiif", "image", "v3", "ark:", "12148"];
    }
    assert old_[1..][1..] == ["full", "full", "0", "native.jpg"]
           && new_[1..][1..] == ["full", "max", "0", "default.jpg"];
    assert Lengths(["full", "full", "0", "native.jpg"]) == 19;
    assert Lengths(["full", "max", "0", "default.jpg"]) == 19;
  }

  /** The alias of the URL actually fetched, under the partition. */
  function TailOf(t: Target): string {
    (if t.host == HOST then "" else t.host + "/") + t.path[if t.path == "" then 0 else 1..]
  }

  function AliasOf(t: Target): string { (PARTITION + "/") + TailOf(t) }

  lemma UrlsDiffer(t: Target, u: Target)
    requires (t.host == HOST || t.host == V3_HOST) && (u.host == HOST || u.host == V3_HOST)
    ensures Url(t) == Url(u) <==> t == u
  {
    Hosts(t.host);
    Hosts(u.host);
    if Url(t) == Url(u) {
      assert Url(t)[8..22] == t.host && Url(u)[8..22] == u.host;
      assert Url(t)[22..] == t.path && Url(u)[22..] == u.path;
    }
  }

  lemma AliasIsOfFetched(t: Target)
    requires Accepted(t.host, t.path)
    ensures RelativeAlias(t) == AliasOf(FetchTarget(t))
    ensures PARTITION + "/" <= RelativeAlias(t)
  {
    FetchIsAccepted(t);
    AcceptedIsPlain(t.host, t.path);
    AcceptedIsPlain(FetchTarget(t).host, FetchTarget(t).path);
    UrlsDiffer(t, FetchTarget(t));
    OneSlash(t.path);
    OneSlash(FetchTarget(t).path);
    hide Accepted, TrimLeft, Url;
  }

  lemma OneSlash(path: string)
    requires |path| > 2 && path[0] == '/' && path[1] == 'i'
    ensures TrimLeft(path, IsSlash) == path[1..]
  {
  }

  /** Two accepted targets share an alias exactly when the same URL is fetched for both. */
  lemma SharedAliasIsSharedFetch(t: Target, u: Target)
    requires Accepted(t.host, t.path) && Accepted(u.host, u.path)
    ensures RelativeAlias(t) == RelativeAlias(u) <==> Url(FetchTarget(t)) == Url(FetchTarget(u))
  {
    AliasIsOfFetched(t);
    AliasIsOfFetched(u);
    FetchIsAccepted(t);
    FetchIsAccepted(u);
    var a, b := FetchTarget(t), FetchTarget(u);
    AcceptedIsPlain(a.host, a.path);
    AcceptedIsPlain(b.host, b.path);
    UrlsDiffer(a, b);
    hide RelativeAlias, FetchTarget, Url, Accepted;
    AliasesDiffer(a, b);
  }

  lemma PrefixCancels(prefix: string, x: string, y: string)
    ensures prefix + x == prefix + y <==> x == y
  {
    assert (prefix + x)[|prefix|..] == x && (prefix + y)[|prefix|..] == y;
  }

  lemma AliasesDiffer(a: Target, b: Target)
    requires (a.host == HOST || a.host == V3_HOST) && |a.path| > 2 && a.path[0] == '/' && a.path[1] == 'i'
    requires (b.host == HOST || b.host == V3_HOST) && |b.path| > 2 && b.path[0] == '/' && b.path[1] == 'i'
    ensures AliasOf(a) == AliasOf(b) <==> a == b
  {
    PrefixCancels(PARTITION + "/", TailOf(a), TailOf(b));
    Hosts(a.host);
    Hosts(b.host);
    hide HostName;
    assert TailOf(a)[0] == if a.host == HOST then 'i' else 'o';
    assert TailOf(b)[0] == if b.host == HOST then 'i' else 'o';
    if TailOf(a) == TailOf(b) {
      assert a.host == b.host;
      assert TailOf(a) == (if a.host == HOST then "" else a.host + "/") + a.path[1..];
      PrefixCancels(if a.host == HOST then "" else a.host + "/", a.path[1..], b.path[1..]);
      assert a.path == "/" + a.path[1..] && b.path == "/" + b.path[1..];
    }
  }

  // ---------------------------------------------------------------- preload and read agree

  /** For every accepted URL, preloading stores under the alias that reading looks up, if and only if
      the URL to fetch still fits the policy's length limit; otherwise preloading is refused. */
  lemma PreloadStoresWhereReadLooks(raw: string)
    requires Require(raw).Some?
    ensures var t := Require(raw).value;
            && Accepted(t.host, t.path)
            && PreloadAlias(raw) == if |Url(FetchTarget(t))| <= 2048 then Some(RelativeAlias(t)) else None
  {
    var t := Require(raw).value;
    hide NormalizeUrl, RelativeAlias, Url, Require, Accepted, FetchTarget;
    assert Accepted(t.host, t.path) by { AcceptedTarget(raw); }
    FetchIsAccepted(t);
    var f := FetchTarget(t);
    NormalizeKeeps(f);
    RequireAgain(f);
    AliasIsOfFetched(t);
    AliasIsOfFetched(f);
    PutBack(RelativeAlias(t));
  }

  lemma AcceptedTarget(raw: string)
    requires Require(raw).Some?
    ensures Accepted(Require(raw).value.host, Require(raw).value.path)
  {
  }

  lemma PutBack(alias: string)
    requires PARTITION + "/" <= alias
    ensures PARTITION + "/" + alias[|PARTITION| + 1..] == alias
  {
  }

  /** Only a legacy full-image URL within nine characters of the limit is refused that way. */
  lemma OnlyLongLegacyUrlsAreRefused(raw: string)
    requires Require(raw).Some?
    ensures PreloadAlias(raw).None? <==> IsLegacyFull(Require(raw).value) && |Url(Require(raw).value)| > 2039
  {
    PreloadStoresWhereReadLooks(raw);
    var t := Require(raw).value;
    FetchIsAccepted(t);
    var u := SplitHttps(raw);
    UnquoteIsNoLonger(u.path);
    FirstSegmentIsPrefix(raw[8..]);
    assert |Url(t)| <= |raw|;
    hide Accepted, PreloadAlias, Require, Url;
  }

  /** The read path naming host and path of a target is read as that target. */
  lemma ReadPathOfTarget(t: Target)
    requires Accepted(t.host, t.path) && |Url(t)| <= 2048
    ensures RequireRead("/" + t.host + t.path, "") == Some(t)
  {
    hide Require, Plain;
    AcceptedIsPlain(t.host, t.path);
    RequireAgain(t);
    assert t.host == HOST || t.host == V3_HOST;
    hide Accepted;
    HostInFront(t.host, t.path);
  }

  lemma HostInFront(host: string, path: string)
    requires path != "" && path[0] == '/'
    ensures "/" + host + "/" <= "/" + host + path
    ensures "https:/" + ("/" + host + path) == Url(Target(host, path))
  {
    assert path == "/" + path[1..];
    assert "/" + host + path == ("/" + host + "/") + path[1..];
    assert "https:/" + "/" == "https://";
  }

  /** A read finds what a preload stored exactly when the same URL is fetched for both. */
  lemma ReadFindsPreloaded(raw: string, path: string)
    requires Require(raw).Some? && PreloadAlias(raw).Some? && RequireRead(path, "").Some?
    ensures PreloadAlias(raw) == Some(RelativeAlias(RequireRead(path, "").value))
       <==> Url(FetchTarget(Require(raw).value)) == Url(FetchTarget(RequireRead(path, "").value))
  {
    PreloadStoresWhereReadLooks(raw);
    AcceptedTarget("https:/" + path);
    hide Require, PreloadAlias, Accepted;
    SharedAliasIsSharedFetch(Require(raw).value, RequireRead(path, "").value);
  }

  lemma LegacyIsAccepted(name: string, page: string)
    requires Name(name) && PageNumber(page)
    ensures var t := Target(HOST, Join(LegacyFull(name, page)));
            Split(t.path) == LegacyFull(name, page) && Accepted(t.host, t.path) && IsLegacyFull(t)
  {
    assert '/' !in page by { assert page == ['f'] + [page[1]] + page[2..]; }
    var s := LegacyFull(name, page);
    SplitJoin(s);
    assert Number("0");
    assert "native.jpg" == "native" + "." + "jpg" && "native" in ["native", "default", "color", "gray", "bitonal"]
           && "jpg" in ["jpg", "jpeg", "tif", "tiff", "webp"];
    assert s[..4] == LEGACY_FRONT && s[4..] == [name, page, "full", "full", "0", "native.jpg"];
  }

  /** There are such URLs: a legacy image with a long identifier passes the policy but cannot be preloaded. */
  lemma SomeAcceptedUrlCannotBePreloaded() returns (raw: string)
    ensures Require(raw).Some? && PreloadAlias(raw).None?
  {
    var name := seq(1980, i => 'a');
    assert "f1"[2..] == "";
    LegacyIsAccepted(name, "f1");
    var t := Target(HOST, Join(LegacyFull(name, "f1")));
    JoinLength(LegacyFull(name, "f1"));
    LengthsConcat(LEGACY_FRONT, [name, "f1", "full", "full", "0", "native.jpg"]);
    assert Lengths(LEGACY_FRONT) == 13 by { assert LEGACY_FRONT[1..] == ["iiif", "ark:", "12148"]; }
    assert Lengths(["full", "full", "0", "native.jpg"]) == 19;
    assert [name, "f1", "full", "full", "0", "native.jpg"][1..][1..] == ["full", "full", "0", "native.jpg"];
    assert |Url(t)| == 2045;
    raw := Url(t);
    hide Url, IsLegacyFull;
    RequireAgain(t);
    OnlyLongLegacyUrlsAreRefused(raw);
  }
}
